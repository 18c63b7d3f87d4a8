/** Pushing overlapping bodies apart along the axis of least overlap. */
module Collision {
  import opened Ecs

  predicate Collidable(w: WorldState, e: Entity) {
    e in w.alive && e in w.positions && e in w.colliders
  }

  function Abs(x: real): real {
    if x < 0.0 then -x else x
  }

  function OverlapX(w: WorldState, a: Entity, b: Entity): real
    requires a in w.positions && b in w.positions && a in w.colliders && b in w.colliders
  {
    w.colliders[a].halfX + w.colliders[b].halfX - Abs(w.positions[b].x - w.positions[a].x)
  }

  function OverlapZ(w: WorldState, a: Entity, b: Entity): real
    requires a in w.positions && b in w.positions && a in w.colliders && b in w.colliders
  {
    w.colliders[a].halfZ + w.colliders[b].halfZ - Abs(w.positions[b].z - w.positions[a].z)
  }

  /** How far `b` goes; on a tie the greater id goes forward. */
  function Shift(d: real, a: Entity, b: Entity, overlap: real): real {
    if d < 0.0 || (d == 0.0 && a > b) then -(overlap * 0.5) else overlap * 0.5
  }

  /** Both stop on the axis they were pushed along. */
  function StoppedX(w: WorldState, e: Entity): WorldState {
    if e in w.velocities then w.SetVelocity(e, w.velocities[e].(vx := 0.0)) else w
  }

  function StoppedZ(w: WorldState, e: Entity): WorldState {
    if e in w.velocities then w.SetVelocity(e, w.velocities[e].(vz := 0.0)) else w
  }

  function Placed(w: WorldState, a: Entity, pa: Position, b: Entity, pb: Position): WorldState {
    w.SetPosition(a, pa).SetPosition(b, pb)
  }

  function PushedX(w: WorldState, a: Entity, b: Entity, overlap: real): WorldState
    requires a in w.positions && b in w.positions
  {
    var pa, pb := w.positions[a], w.positions[b];
    var shift := Shift(pb.x - pa.x, a, b, overlap);
    StoppedX(StoppedX(Placed(w, a, pa.(x := pa.x - shift), b, pb.(x := pb.x + shift)), a), b)
  }

  function PushedZ(w: WorldState, a: Entity, b: Entity, overlap: real): WorldState
    requires a in w.positions && b in w.positions
  {
    var pa, pb := w.positions[a], w.positions[b];
    var shift := Shift(pb.z - pa.z, a, b, overlap);
    StoppedZ(StoppedZ(Placed(w, a, pa.(z := pa.z - shift), b, pb.(z := pb.z + shift)), a), b)
  }

  /** One pair: nothing unless both overlaps are positive, else half the smaller each. */
  function Resolve(w: WorldState, a: Entity, b: Entity): WorldState {
    if a !in w.positions || a !in w.colliders || b !in w.positions || b !in w.colliders then w
    else if OverlapX(w, a, b) <= 0.0 || OverlapZ(w, a, b) <= 0.0 then w
    else if OverlapX(w, a, b) <= OverlapZ(w, a, b) then PushedX(w, a, b, OverlapX(w, a, b))
    else PushedZ(w, a, b, OverlapZ(w, a, b))
  }

  /** The row of `i` against the entities after it, up to `j`. */
  function RowResolved(w: WorldState, es: seq<Entity>, i: nat, j: nat): WorldState
    requires i < j <= |es|
  {
    if j == i + 1 then w else Resolve(RowResolved(w, es, i, j - 1), es[i], es[j - 1])
  }

  function AllResolved(w: WorldState, es: seq<Entity>, i: nat): WorldState
    requires i <= |es|
  {
    if i == 0 then w else RowResolved(AllResolved(w, es, i - 1), es, i - 1, |es|)
  }

  predicate Distinct(s: seq<Entity>) {
    forall i, j :: 0 <= i < j < |s| ==> s[i] != s[j]
  }

  ghost predicate ListsCollidable(es: seq<Entity>, w: WorldState) {
    Distinct(es) && forall e :: e in es <==> Collidable(w, e)
  }

  // ---------------------------------------------------------------- one push

  lemma StopXOnly(w: WorldState, e: Entity)
    ensures var r := StoppedX(w, e);
            r == w.(velocities := r.velocities) && r.velocities.Keys == w.velocities.Keys &&
            forall x <- w.velocities :: r.velocities[x] == if x == e then w.velocities[x].(vx := 0.0) else w.velocities[x]
  {
  }

  lemma StopZOnly(w: WorldState, e: Entity)
    ensures var r := StoppedZ(w, e);
            r == w.(velocities := r.velocities) && r.velocities.Keys == w.velocities.Keys &&
            forall x <- w.velocities :: r.velocities[x] == if x == e then w.velocities[x].(vz := 0.0) else w.velocities[x]
  {
  }

  /** Where a push puts the two, and that it changes nothing else but their velocities on that axis. */
  lemma PushXPlaces(w: WorldState, a: Entity, b: Entity, overlap: real)
    requires a != b && a in w.positions && b in w.positions
    ensures var r, shift := PushedX(w, a, b, overlap), Shift(w.positions[b].x - w.positions[a].x, a, b, overlap);
            r.positions == w.positions[a := w.positions[a].(x := w.positions[a].x - shift)][b := w.positions[b].(x := w.positions[b].x + shift)] &&
            r.alive == w.alive && r.colliders == w.colliders && r.velocities.Keys == w.velocities.Keys &&
            forall e <- w.velocities :: r.velocities[e] == if e == a || e == b then w.velocities[e].(vx := 0.0) else w.velocities[e]
  {
    hide Shift, StoppedX;
    var pa, pb := w.positions[a], w.positions[b];
    var shift := Shift(pb.x - pa.x, a, b, overlap);
    var placed := Placed(w, a, pa.(x := pa.x - shift), b, pb.(x := pb.x + shift));
    StopXOnly(placed, a);
    StopXOnly(StoppedX(placed, a), b);
  }

  lemma PushZPlaces(w: WorldState, a: Entity, b: Entity, overlap: real)
    requires a != b && a in w.positions && b in w.positions
    ensures var r, shift := PushedZ(w, a, b, overlap), Shift(w.positions[b].z - w.positions[a].z, a, b, overlap);
            r.positions == w.positions[a := w.positions[a].(z := w.positions[a].z - shift)][b := w.positions[b].(z := w.positions[b].z + shift)] &&
            r.alive == w.alive && r.colliders == w.colliders && r.velocities.Keys == w.velocities.Keys &&
            forall e <- w.velocities :: r.velocities[e] == if e == a || e == b then w.velocities[e].(vz := 0.0) else w.velocities[e]
  {
    hide Shift, StoppedZ;
    var pa, pb := w.positions[a], w.positions[b];
    var shift := Shift(pb.z - pa.z, a, b, overlap);
    var placed := Placed(w, a, pa.(z := pa.z - shift), b, pb.(z := pb.z + shift));
    StopZOnly(placed, a);
    StopZOnly(StoppedZ(placed, a), b);
  }

  lemma ShiftWidens(d: real, a: Entity, b: Entity, reach: real)
    requires reach - Abs(d) > 0.0
    ensures reach - Abs(d + 2.0 * Shift(d, a, b, reach - Abs(d))) == 0.0
  {
  }

  lemma ShiftKeepsSides(p: real, q: real, a: Entity, b: Entity, overlap: real)
    requires a != b && overlap > 0.0
    ensures Before(p, q, a, b) <==> p - Shift(q - p, a, b, overlap) < q + Shift(q - p, a, b, overlap)
  {
  }

  /** Right after its own push a pair touches exactly on the pushed axis, on the
      sides it was before, keeps its places on the other axes, and has stopped on
      the pushed one. */
  lemma PushTouches(w: WorldState, a: Entity, b: Entity)
    requires a != b && a in w.positions && b in w.positions && a in w.colliders && b in w.colliders
    requires OverlapX(w, a, b) > 0.0 && OverlapZ(w, a, b) > 0.0
    ensures var r := Resolve(w, a, b);
            var alongX := OverlapX(w, a, b) <= OverlapZ(w, a, b);
            r.positions.Keys == w.positions.Keys && r.colliders == w.colliders &&
            (if alongX then OverlapX(r, a, b) == 0.0 && OverlapZ(r, a, b) == OverlapZ(w, a, b)
             else OverlapZ(r, a, b) == 0.0 && OverlapX(r, a, b) == OverlapX(w, a, b)) &&
            (forall e <- {a, b} :: r.positions[e].y == w.positions[e].y) &&
            (if alongX then Before(w.positions[a].x, w.positions[b].x, a, b) <==> r.positions[a].x < r.positions[b].x
             else Before(w.positions[a].z, w.positions[b].z, a, b) <==> r.positions[a].z < r.positions[b].z) &&
            (forall e <- {a, b} | e in w.velocities :: e in r.velocities && if alongX then r.velocities[e].vx == 0.0 else r.velocities[e].vz == 0.0)
  {
    hide PushedX, PushedZ, Shift, Abs, Before;
    if OverlapX(w, a, b) <= OverlapZ(w, a, b) {
      PushXPlaces(w, a, b, OverlapX(w, a, b));
      ShiftKeepsSides(w.positions[a].x, w.positions[b].x, a, b, OverlapX(w, a, b));
      ShiftWidens(w.positions[b].x - w.positions[a].x, a, b, w.colliders[a].halfX + w.colliders[b].halfX);
    } else {
      PushZPlaces(w, a, b, OverlapZ(w, a, b));
      ShiftKeepsSides(w.positions[a].z, w.positions[b].z, a, b, OverlapZ(w, a, b));
      ShiftWidens(w.positions[b].z - w.positions[a].z, a, b, w.colliders[a].halfZ + w.colliders[b].halfZ);
    }
  }

  /** One push is enough: the pair no longer meets, so doing it again changes nothing. */
  lemma ResolveSettles(w: WorldState, a: Entity, b: Entity)
    requires a != b
    ensures Resolve(Resolve(w, a, b), a, b) == Resolve(w, a, b)
  {
    if a in w.positions && b in w.positions && a in w.colliders && b in w.colliders && OverlapX(w, a, b) > 0.0 && OverlapZ(w, a, b) > 0.0 {
      PushTouches(w, a, b);
      hide PushedX, PushedZ, OverlapX, OverlapZ;
    }
  }

  // ---------------------------------------------------------------- a push told by the boxes alone

  /** How far one of two intervals must move to be clear of the other: the nearer of the two ways out. */
  function Depth(p: real, h: real, q: real, k: real): real {
    if (p + h) - (q - k) <= (q + k) - (p - h) then (p + h) - (q - k) else (q + k) - (p - h)
  }

  function DepthX(w: WorldState, a: Entity, b: Entity): real
    requires a in w.positions && b in w.positions && a in w.colliders && b in w.colliders
  {
    Depth(w.positions[a].x, w.colliders[a].halfX, w.positions[b].x, w.colliders[b].halfX)
  }

  function DepthZ(w: WorldState, a: Entity, b: Entity): real
    requires a in w.positions && b in w.positions && a in w.colliders && b in w.colliders
  {
    Depth(w.positions[a].z, w.colliders[a].halfZ, w.positions[b].z, w.colliders[b].halfZ)
  }

  lemma DepthIsOverlap(p: real, h: real, q: real, k: real)
    ensures Depth(p, h, q, k) == h + k - Abs(q - p)
  {
  }

  /** The insides of the two boxes meet, seen from above. */
  predicate Penetrate(w: WorldState, a: Entity, b: Entity) {
    a in w.positions && b in w.positions && a in w.colliders && b in w.colliders && DepthX(w, a, b) > 0.0 && DepthZ(w, a, b) > 0.0
  }

  /** `a` stands before `b` on an axis on which they are at `p` and `q`; on a tie the smaller id does. */
  predicate Before(p: real, q: real, a: Entity, b: Entity) {
    p < q || (p == q && a < b)
  }

  /** The one before goes back and the other forward, each by half of `depth`. */
  predicate MovedApart(p: real, q: real, a: Entity, b: Entity, depth: real, p': real, q': real) {
    if Before(p, q, a, b) then p' == p - depth / 2.0 && q' == q + depth / 2.0 else p' == p + depth / 2.0 && q' == q - depth / 2.0
  }

  lemma ShiftMovesApart(p: real, q: real, a: Entity, b: Entity, depth: real)
    requires a != b
    ensures MovedApart(p, q, a, b, depth, p - Shift(q - p, a, b, depth), q + Shift(q - p, a, b, depth))
  {
  }

  /** Moving apart never swaps the two: whoever stood before the other still does, and now strictly. */
  lemma ApartKeepsOrder(p: real, q: real, a: Entity, b: Entity, depth: real, p': real, q': real)
    requires depth > 0.0 && MovedApart(p, q, a, b, depth, p', q')
    ensures if Before(p, q, a, b) then p' < q' else q' < p'
  {
  }

  /** A pair whose insides do not meet is left alone. Any other is moved apart on
      the axis of the lesser depth, X on a tie, without swapping sides; both stop
      and are marked there, and nothing else about anybody changes. */
  lemma ResolveParts(w: WorldState, a: Entity, b: Entity)
    requires a != b
    ensures !Penetrate(w, a, b) ==> Resolve(w, a, b) == w
    ensures Penetrate(w, a, b) ==>
              var r := Resolve(w, a, b); var pa, pb := w.positions[a], w.positions[b];
              r == w.(positions := r.positions, velocities := r.velocities, dirty := w.dirty + {a, b}) &&
              r.positions.Keys == w.positions.Keys && (forall e <- w.positions :: e != a && e != b ==> r.positions[e] == w.positions[e]) &&
              if DepthX(w, a, b) <= DepthZ(w, a, b) then
                MovedApart(pa.x, pb.x, a, b, DepthX(w, a, b), r.positions[a].x, r.positions[b].x) &&
                (if Before(pa.x, pb.x, a, b) then r.positions[a].x < r.positions[b].x else r.positions[b].x < r.positions[a].x) &&
                r.positions[a] == pa.(x := r.positions[a].x) && r.positions[b] == pb.(x := r.positions[b].x) && StopOnX(w, r, a, b)
              else
                MovedApart(pa.z, pb.z, a, b, DepthZ(w, a, b), r.positions[a].z, r.positions[b].z) &&
                (if Before(pa.z, pb.z, a, b) then r.positions[a].z < r.positions[b].z else r.positions[b].z < r.positions[a].z) &&
                r.positions[a] == pa.(z := r.positions[a].z) && r.positions[b] == pb.(z := r.positions[b].z) && StopOnZ(w, r, a, b)
  {
    hide Shift, Abs, PushedX, PushedZ, Depth, MovedApart, Before;
    if a in w.positions && b in w.positions && a in w.colliders && b in w.colliders {
      var pa, pb, ca, cb := w.positions[a], w.positions[b], w.colliders[a], w.colliders[b];
      DepthIsOverlap(pa.x, ca.halfX, pb.x, cb.halfX);
      DepthIsOverlap(pa.z, ca.halfZ, pb.z, cb.halfZ);
      if Penetrate(w, a, b) {
        PushedApartX(w, a, b, DepthX(w, a, b));
        PushedApartZ(w, a, b, DepthZ(w, a, b));
      }
    }
  }

  predicate StopOnX(w: WorldState, r: WorldState, a: Entity, b: Entity) {
    r.velocities.Keys == w.velocities.Keys &&
    forall e <- w.velocities :: r.velocities[e] == if e == a || e == b then w.velocities[e].(vx := 0.0) else w.velocities[e]
  }

  predicate StopOnZ(w: WorldState, r: WorldState, a: Entity, b: Entity) {
    r.velocities.Keys == w.velocities.Keys &&
    forall e <- w.velocities :: r.velocities[e] == if e == a || e == b then w.velocities[e].(vz := 0.0) else w.velocities[e]
  }

  lemma PushedApartX(w: WorldState, a: Entity, b: Entity, depth: real)
    requires a != b && a in w.positions && b in w.positions && depth > 0.0
    ensures var r := PushedX(w, a, b, depth); var pa, pb := w.positions[a], w.positions[b];
            r == w.(positions := r.positions, velocities := r.velocities, dirty := w.dirty + {a, b}) &&
            r.positions.Keys == w.positions.Keys && (forall e <- w.positions :: e != a && e != b ==> r.positions[e] == w.positions[e]) &&
            MovedApart(pa.x, pb.x, a, b, depth, r.positions[a].x, r.positions[b].x) &&
            (if Before(pa.x, pb.x, a, b) then r.positions[a].x < r.positions[b].x else r.positions[b].x < r.positions[a].x) &&
            r.positions[a] == pa.(x := r.positions[a].x) && r.positions[b] == pb.(x := r.positions[b].x) && StopOnX(w, r, a, b)
  {
    var pa, pb := w.positions[a], w.positions[b];
    PushXPlaces(w, a, b, depth);
    ShiftMovesApart(pa.x, pb.x, a, b, depth);
    hide Shift, MovedApart;
    ApartKeepsOrder(pa.x, pb.x, a, b, depth, pa.x - Shift(pb.x - pa.x, a, b, depth), pb.x + Shift(pb.x - pa.x, a, b, depth));
  }

  lemma PushedApartZ(w: WorldState, a: Entity, b: Entity, depth: real)
    requires a != b && a in w.positions && b in w.positions && depth > 0.0
    ensures var r := PushedZ(w, a, b, depth); var pa, pb := w.positions[a], w.positions[b];
            r == w.(positions := r.positions, velocities := r.velocities, dirty := w.dirty + {a, b}) &&
            r.positions.Keys == w.positions.Keys && (forall e <- w.positions :: e != a && e != b ==> r.positions[e] == w.positions[e]) &&
            MovedApart(pa.z, pb.z, a, b, depth, r.positions[a].z, r.positions[b].z) &&
            (if Before(pa.z, pb.z, a, b) then r.positions[a].z < r.positions[b].z else r.positions[b].z < r.positions[a].z) &&
            r.positions[a] == pa.(z := r.positions[a].z) && r.positions[b] == pb.(z := r.positions[b].z) && StopOnZ(w, r, a, b)
  {
    var pa, pb := w.positions[a], w.positions[b];
    PushZPlaces(w, a, b, depth);
    ShiftMovesApart(pa.z, pb.z, a, b, depth);
    hide Shift, MovedApart;
    ApartKeepsOrder(pa.z, pb.z, a, b, depth, pa.z - Shift(pb.z - pa.z, a, b, depth), pb.z + Shift(pb.z - pa.z, a, b, depth));
  }

  /** It does not matter which of the two comes first. */
  lemma ResolveIsSymmetric(w: WorldState, a: Entity, b: Entity)
    requires a != b
    ensures Resolve(w, a, b) == Resolve(w, b, a)
  {
    if a in w.positions && b in w.positions && a in w.colliders && b in w.colliders {
      assert OverlapX(w, a, b) == OverlapX(w, b, a) && OverlapZ(w, a, b) == OverlapZ(w, b, a);
      hide OverlapX, OverlapZ, PushedX, PushedZ;
      PushXIsSymmetric(w, a, b, OverlapX(w, a, b));
      PushZIsSymmetric(w, a, b, OverlapZ(w, a, b));
    }
  }

  lemma ShiftIsSymmetric(d: real, a: Entity, b: Entity, overlap: real)
    requires a != b
    ensures Shift(-d, b, a, overlap) == -Shift(d, a, b, overlap)
  {
  }

  lemma PlacedIsSymmetric(w: WorldState, a: Entity, pa: Position, b: Entity, pb: Position)
    requires a != b
    ensures Placed(w, a, pa, b, pb) == Placed(w, b, pb, a, pa)
  {
    assert w.positions[a := pa][b := pb] == w.positions[b := pb][a := pa];
  }

  lemma PushXIsSymmetric(w: WorldState, a: Entity, b: Entity, overlap: real)
    requires a != b && a in w.positions && b in w.positions
    ensures PushedX(w, a, b, overlap) == PushedX(w, b, a, overlap)
  {
    var pa, pb := w.positions[a], w.positions[b];
    ShiftIsSymmetric(pb.x - pa.x, a, b, overlap);
    var shift := Shift(pb.x - pa.x, a, b, overlap);
    PlacedIsSymmetric(w, a, pa.(x := pa.x - shift), b, pb.(x := pb.x + shift));
    hide Shift, Placed;
    StopXIsSymmetric(Placed(w, a, pa.(x := pa.x - shift), b, pb.(x := pb.x + shift)), a, b);
  }

  lemma StopXIsSymmetric(w: WorldState, a: Entity, b: Entity)
    ensures StoppedX(StoppedX(w, a), b) == StoppedX(StoppedX(w, b), a)
  {
    hide StoppedX;
    StopXOnly(w, a);
    StopXOnly(w, b);
    StopXOnly(StoppedX(w, a), b);
    StopXOnly(StoppedX(w, b), a);
    assert StoppedX(StoppedX(w, a), b).velocities == StoppedX(StoppedX(w, b), a).velocities;
  }

  lemma PushZIsSymmetric(w: WorldState, a: Entity, b: Entity, overlap: real)
    requires a != b && a in w.positions && b in w.positions
    ensures PushedZ(w, a, b, overlap) == PushedZ(w, b, a, overlap)
  {
    var pa, pb := w.positions[a], w.positions[b];
    ShiftIsSymmetric(pb.z - pa.z, a, b, overlap);
    var shift := Shift(pb.z - pa.z, a, b, overlap);
    PlacedIsSymmetric(w, a, pa.(z := pa.z - shift), b, pb.(z := pb.z + shift));
    hide Shift, Placed;
    StopZIsSymmetric(Placed(w, a, pa.(z := pa.z - shift), b, pb.(z := pb.z + shift)), a, b);
  }

  lemma StopZIsSymmetric(w: WorldState, a: Entity, b: Entity)
    ensures StoppedZ(StoppedZ(w, a), b) == StoppedZ(StoppedZ(w, b), a)
  {
    hide StoppedZ;
    StopZOnly(w, a);
    StopZOnly(w, b);
    StopZOnly(StoppedZ(w, a), b);
    StopZOnly(StoppedZ(w, b), a);
    assert StoppedZ(StoppedZ(w, a), b).velocities == StoppedZ(StoppedZ(w, b), a).velocities;
  }

  // ---------------------------------------------------------------- conservation

  function SumX(all: seq<Entity>, positions: map<Entity, Position>): real
    requires forall e <- all :: e in positions
  {
    if all == [] then 0.0 else SumX(all[..|all| - 1], positions) + positions[all[|all| - 1]].x
  }

  function SumZ(all: seq<Entity>, positions: map<Entity, Position>): real
    requires forall e <- all :: e in positions
  {
    if all == [] then 0.0 else SumZ(all[..|all| - 1], positions) + positions[all[|all| - 1]].z
  }

  /** `p` and `q` differ at most in two places, by opposite amounts. */
  predicate Balanced(p: map<Entity, Position>, q: map<Entity, Position>, a: Entity, b: Entity) {
    p.Keys == q.Keys && a != b && a in p && b in p &&
    (forall e <- p :: e != a && e != b ==> q[e] == p[e]) &&
    q[a].x + q[b].x == p[a].x + p[b].x && q[a].z + q[b].z == p[a].z + p[b].z
  }

  lemma {:induction false} SumsOf(all: seq<Entity>, p: map<Entity, Position>, q: map<Entity, Position>,
                                  a: Entity, b: Entity)
    requires Distinct(all) && (forall e <- all :: e in p) && Balanced(p, q, a, b)
    ensures SumX(all, q) == SumX(all, p) + (if a in all then q[a].x - p[a].x else 0.0) + (if b in all then q[b].x - p[b].x else 0.0)
    ensures SumZ(all, q) == SumZ(all, p) + (if a in all then q[a].z - p[a].z else 0.0) + (if b in all then q[b].z - p[b].z else 0.0)
  {
    if all != [] {
      var front, e := all[..|all| - 1], all[|all| - 1];
      assert all == front + [e];
      assert e !in front;
      SumsOf(front, p, q, a, b);
    }
  }

  lemma ResolveBalances(w: WorldState, a: Entity, b: Entity)
    requires a != b
    ensures Resolve(w, a, b).positions == w.positions || Balanced(w.positions, Resolve(w, a, b).positions, a, b)
    ensures Resolve(w, a, b).alive == w.alive && Resolve(w, a, b).colliders == w.colliders
    ensures Resolve(w, a, b).positions.Keys == w.positions.Keys
    ensures forall e <- w.positions :: Resolve(w, a, b).positions[e].y == w.positions[e].y &&
              (e != a && e != b ==> Resolve(w, a, b).positions[e] == w.positions[e])
  {
    hide OverlapX, OverlapZ, PushedX, PushedZ, Shift;
    if a in w.positions && b in w.positions && a in w.colliders && b in w.colliders {
      PushXPlaces(w, a, b, OverlapX(w, a, b));
      PushZPlaces(w, a, b, OverlapZ(w, a, b));
    }
  }

  /** What a whole update leaves alone. */
  ghost predicate Conserves(w: WorldState, r: WorldState) {
    r.alive == w.alive && r.colliders == w.colliders && r.positions.Keys == w.positions.Keys &&
    (forall e <- w.positions :: r.positions[e].y == w.positions[e].y && (!Collidable(w, e) ==> r.positions[e] == w.positions[e])) &&
    forall all: seq<Entity> | Distinct(all) && forall e :: e in all <==> e in w.positions ::
      SumX(all, r.positions) == SumX(all, w.positions) && SumZ(all, r.positions) == SumZ(all, w.positions)
  }

  lemma ResolveConserves(w: WorldState, a: Entity, b: Entity)
    requires a != b && Collidable(w, a) && Collidable(w, b)
    ensures Conserves(w, Resolve(w, a, b))
  {
    ResolveBalances(w, a, b);
    hide Resolve;
    var r := Resolve(w, a, b);
    forall all: seq<Entity> | Distinct(all) && forall e :: e in all <==> e in w.positions
      ensures SumX(all, r.positions) == SumX(all, w.positions) && SumZ(all, r.positions) == SumZ(all, w.positions)
    {
      if r.positions != w.positions {
        SumsOf(all, w.positions, r.positions, a, b);
      }
    }
  }

  lemma ConservesTrans(w: WorldState, r: WorldState, s: WorldState)
    requires Conserves(w, r) && Conserves(r, s)
    ensures Conserves(w, s)
  {
    hide SumX, SumZ;
    forall all: seq<Entity> | Distinct(all) && forall e :: e in all <==> e in w.positions
      ensures SumX(all, s.positions) == SumX(all, w.positions) && SumZ(all, s.positions) == SumZ(all, w.positions)
    {
      assert forall e :: e in all <==> e in r.positions;
    }
  }

  lemma {:induction false} RowConserves(w: WorldState, es: seq<Entity>, i: nat, j: nat)
    requires i < j <= |es| && ListsCollidable(es, w)
    ensures Conserves(w, RowResolved(w, es, i, j)) && ListsCollidable(es, RowResolved(w, es, i, j))
    decreases j
  {
    hide Resolve;
    if j > i + 1 {
      RowConserves(w, es, i, j - 1);
      var r := RowResolved(w, es, i, j - 1);
      assert es[i] in es && es[j - 1] in es;
      ResolveConserves(r, es[i], es[j - 1]);
      ConservesTrans(w, r, Resolve(r, es[i], es[j - 1]));
      SameCollidable(es, r, Resolve(r, es[i], es[j - 1]));
    }
  }

  lemma SameCollidable(es: seq<Entity>, w: WorldState, r: WorldState)
    requires ListsCollidable(es, w) && Conserves(w, r)
    ensures ListsCollidable(es, r)
  {
    assert forall e :: Collidable(w, e) <==> Collidable(r, e);
  }

  /** A whole update moves the bodies about but keeps the sums of X and of Z over
      all entities, every height, and everything that has no collider. */
  lemma {:induction false} UpdateConserves(w: WorldState, es: seq<Entity>, i: nat)
    requires i <= |es| && ListsCollidable(es, w)
    ensures Conserves(w, AllResolved(w, es, i)) && ListsCollidable(es, AllResolved(w, es, i))
    decreases i
  {
    if i > 0 {
      UpdateConserves(w, es, i - 1);
      RowConserves(AllResolved(w, es, i - 1), es, i - 1, |es|);
      ConservesTrans(w, AllResolved(w, es, i - 1), AllResolved(w, es, i));
    }
  }

  // ---------------------------------------------------------------- the system

  /** All living bodies, in some order. */
  method QueryCollidable(w: World) returns (out: seq<Entity>)
    ensures ListsCollidable(out, w.State())
  {
    out := [];
    var rest := w.alive;
    while rest != {}
      invariant rest <= w.alive && Distinct(out) && forall e :: e in out <==> e !in rest && Collidable(w.State(), e)
      decreases |rest|
    {
      var e :| e in rest;
      assert e !in out;
      rest := rest - {e};
      if e in w.positions && e in w.colliders {
        out := out + [e];
      }
    }
  }

  /** Resolves every pair once, in the order of the query; the cached position of
      the row's entity is always its position in the world. */
  method Update(w: World)
    modifies w
    ensures exists es :: ListsCollidable(es, old(w.State())) && w.State() == AllResolved(old(w.State()), es, |es|)
    ensures Conserves(old(w.State()), w.State())
  {
    hide Resolve, Conserves;
    var es := QueryCollidable(w);
    for i := 0 to |es|
      invariant w.State() == AllResolved(old(w.State()), es, i)
    {
      ghost var rowStart := w.State();
      var a := es[i];
      if a in w.positions && a in w.colliders {
        var pa := w.positions[a];
        for j := i + 1 to |es|
          invariant w.State() == RowResolved(rowStart, es, i, j)
          invariant a in w.positions && a in w.colliders && pa == w.positions[a]
        {
          assert es[j] != a;
          pa := PushApart(w, a, pa, es[j]);
        }
      } else {
        RowOfNothing(rowStart, es, i, |es|);
      }
    }
    UpdateConserves(old(w.State()), es, |es|);
  }

  lemma {:induction false} RowOfNothing(w: WorldState, es: seq<Entity>, i: nat, j: nat)
    requires i < j <= |es| && (es[i] !in w.positions || es[i] !in w.colliders)
    ensures RowResolved(w, es, i, j) == w
    decreases j
  {
    if j > i + 1 {
      RowOfNothing(w, es, i, j - 1);
    }
  }

  /** One pair; `pa` is the caller's copy of the position of `a`, returned up to date. */
  method PushApart(w: World, a: Entity, pa: Position, b: Entity) returns (pa': Position)
    requires a != b && a in w.positions && a in w.colliders && pa == w.positions[a]
    modifies w
    ensures w.State() == Resolve(old(w.State()), a, b)
    ensures a in w.positions && a in w.colliders && pa' == w.positions[a]
  {
    hide Abs, PushedX, PushedZ;
    pa' := pa;
    if b !in w.positions || b !in w.colliders {
      return;
    }
    var pb := w.positions[b];
    var dx, dz := pb.x - pa.x, pb.z - pa.z;
    var overlapX := w.colliders[a].halfX + w.colliders[b].halfX - Abs(dx);
    var overlapZ := w.colliders[a].halfZ + w.colliders[b].halfZ - Abs(dz);
    if overlapX <= 0.0 || overlapZ <= 0.0 {
      return;
    }
    if overlapX <= overlapZ {
      pa' := PushX(w, a, b, pa, pb, overlapX);
    } else {
      pa' := PushZ(w, a, b, pa, pb, overlapZ);
    }
  }

  method PushX(w: World, a: Entity, b: Entity, pa: Position, pb: Position, overlap: real) returns (pa': Position)
    requires a != b && a in w.positions && b in w.positions && pa == w.positions[a] && pb == w.positions[b]
    modifies w
    ensures w.State() == PushedX(old(w.State()), a, b, overlap)
    ensures a in w.positions && w.colliders == old(w.colliders) && pa' == w.positions[a]
  {
    hide Shift, StoppedX, Placed;
    var shift := Shift(pb.x - pa.x, a, b, overlap);
    pa' := pa.(x := pa.x - shift);
    Place(w, a, pa', b, pb.(x := pb.x + shift));
    ZeroVelocityX(w, a, b);
  }

  method PushZ(w: World, a: Entity, b: Entity, pa: Position, pb: Position, overlap: real) returns (pa': Position)
    requires a != b && a in w.positions && b in w.positions && pa == w.positions[a] && pb == w.positions[b]
    modifies w
    ensures w.State() == PushedZ(old(w.State()), a, b, overlap)
    ensures a in w.positions && w.colliders == old(w.colliders) && pa' == w.positions[a]
  {
    hide Shift, StoppedZ, Placed;
    var shift := Shift(pb.z - pa.z, a, b, overlap);
    pa' := pa.(z := pa.z - shift);
    Place(w, a, pa', b, pb.(z := pb.z + shift));
    ZeroVelocityZ(w, a, b);
  }

  method Place(w: World, a: Entity, pa: Position, b: Entity, pb: Position)
    modifies w
    ensures w.State() == Placed(old(w.State()), a, pa, b, pb)
    ensures a in w.positions && w.colliders == old(w.colliders) && (a != b ==> w.positions[a] == pa)
  {
    w.SetPosition(a, pa);
    w.SetPosition(b, pb);
  }

  method ZeroVelocityX(w: World, a: Entity, b: Entity)
    modifies w
    ensures w.State() == StoppedX(StoppedX(old(w.State()), a), b)
    ensures w.positions == old(w.positions) && w.colliders == old(w.colliders)
  {
    if a in w.velocities {
      w.SetVelocity(a, w.velocities[a].(vx := 0.0));
    }
    if b in w.velocities {
      w.SetVelocity(b, w.velocities[b].(vx := 0.0));
    }
  }

  method ZeroVelocityZ(w: World, a: Entity, b: Entity)
    modifies w
    ensures w.State() == StoppedZ(StoppedZ(old(w.State()), a), b)
    ensures w.positions == old(w.positions) && w.colliders == old(w.colliders)
  {
    if a in w.velocities {
      w.SetVelocity(a, w.velocities[a].(vz := 0.0));
    }
    if b in w.velocities {
      w.SetVelocity(b, w.velocities[b].(vz := 0.0));
    }
  }
}
