/** The flight of a bullet (main.py:29-90).  Coordinates are exact reals, math.sqrt is a
    function that satisfies the defining equations of the square root.  What checkHitTank answers
    is a parameter: it depends on the tick, because tanks move between ticks, and on the place. */
module TankBullet {
  import TankMap

  const SPEED := 0.7
  const RANGE := 16.0

  /** Where a bullet starts and the unit vector (cos r, sin r) it was fired along. */
  datatype Shot = Shot(xStart: real, yStart: real, dx: real, dy: real)

  predicate Unit(s: Shot) {
    s.dx * s.dx + s.dy * s.dy == 1.0
  }

  /** The defining property of math.sqrt. */
  ghost predicate IsSqrt(sqrt: real -> real) {
    forall v: real :: v >= 0.0 ==> sqrt(v) >= 0.0 && sqrt(v) * sqrt(v) == v
  }

  /** How far k ticks move a bullet along one axis. */
  function Gone(k: nat, d: real): real {
    SPEED * k as real * d
  }

  /** Position after k ticks: on the straight line, 0.7 further each tick. */
  function At(s: Shot, k: nat): (real, real) {
    (s.xStart + Gone(k, s.dx), s.yStart + Gone(k, s.dy))
  }

  function Target(s: Shot): (real, real) {
    (s.xStart + s.dx * RANGE, s.yStart + s.dy * RANGE)
  }

  /** Distance still to go after k ticks. */
  function Left(k: nat): real {
    RANGE - SPEED * k as real
  }

  /** Why the bullet ends at tick k: near its target, off the map, in a block, or a hit. */
  ghost predicate Stops(s: Shot, hit: (nat, real, real) -> bool, k: nat) {
    var (x, y) := At(s, k);
    || Left(k) < 1.0
    || x <= 0.0 || y <= 0.0 || x >= TankMap.WIDTH || y >= TankMap.HEIGHT
    || TankMap.Blocked(x, y, 1.0)
    || hit(k, x, y)
  }

  /** Up to n more ticks from tick k: where the bullet is then, and whether it was removed. */
  ghost function Advance(s: Shot, hit: (nat, real, real) -> bool, k: nat, n: nat): (r: (nat, bool))
    ensures k <= r.0 <= k + n
    decreases n
  {
    if n == 0 then (k, false)
    else if Stops(s, hit, k + 1) then (k + 1, true)
    else Advance(s, hit, k + 1, n - 1)
  }

  lemma Positive(p: real, q: real)
    requires p > 0.0 && q > 0.0
    ensures p * q > 0.0
  {
  }

  lemma SquaresAgree(a: real, b: real)
    requires a >= 0.0 && b >= 0.0 && a * a == b * b
    ensures a == b
  {
    assert (a - b) * (a + b) == 0.0;
    assert (b - a) * (b + a) == 0.0;
    if a > b {
      Positive(a - b, a + b);
    } else if b > a {
      Positive(b - a, b + a);
    }
  }

  function Norm2(ox: real, oy: real): real {
    ox * ox + oy * oy
  }

  lemma Scaled(u: real, dx: real, dy: real)
    requires dx * dx + dy * dy == 1.0
    ensures Norm2(u * dx, u * dy) == u * u
  {
    assert (u * dx) * (u * dx) == (u * u) * (dx * dx);
    assert (u * dy) * (u * dy) == (u * u) * (dy * dy);
    assert (u * u) * (dx * dx) + (u * u) * (dy * dy) == (u * u) * (dx * dx + dy * dy);
  }

  lemma Mirrored(ox: real, oy: real, px: real, py: real)
    requires px == -ox && py == -oy
    ensures Norm2(px, py) == Norm2(ox, oy)
  {
    assert px * px == ox * ox && py * py == oy * oy;
  }

  lemma Remaining(k: nat, d: real)
    ensures d * RANGE - Gone(k, d) == Left(k) * d
  {
    assert Left(k) * d == RANGE * d - (SPEED * k as real) * d;
  }

  /** The offsets to the target are the remaining distance along the direction. */
  lemma Offsets(s: Shot, k: nat)
    ensures Target(s).0 - At(s, k).0 == Left(k) * s.dx && Target(s).1 - At(s, k).1 == Left(k) * s.dy
  {
    Remaining(k, s.dx);
    Remaining(k, s.dy);
  }

  /** After k ticks the distance to the target is exactly 16 - 0.7k. */
  lemma DistanceLeft(s: Shot, k: nat, sqrt: real -> real)
    requires Unit(s) && IsSqrt(sqrt) && k <= 22
    ensures sqrt(Norm2(Target(s).0 - At(s, k).0, Target(s).1 - At(s, k).1)) == Left(k)
    ensures sqrt(Norm2(At(s, k).0 - Target(s).0, At(s, k).1 - Target(s).1)) == Left(k)
  {
    Offsets(s, k);
    Scaled(Left(k), s.dx, s.dy);
    Mirrored(Target(s).0 - At(s, k).0, Target(s).1 - At(s, k).1, At(s, k).0 - Target(s).0, At(s, k).1 - Target(s).1);
    SquaresAgree(sqrt(Left(k) * Left(k)), Left(k));
  }

  /** Normalising an offset a * d of length a gives d. */
  lemma Normalised(o: real, a: real, d: real, l: real)
    requires o == a * d && a * l == 1.0
    ensures o * l == d
  {
    assert o * l == (a * l) * d;
  }

  lemma Distributes(c: real, n: real, d: real)
    ensures c * (n + 1.0) * d == c * n * d + d * c
  {
    assert c * (n + 1.0) == c * n + c;
    assert (c * n + c) * d == (c * n) * d + c * d;
  }

  lemma OneMore(k: nat, d: real)
    ensures Gone(k + 1, d) == Gone(k, d) + d * SPEED
  {
    assert (k + 1) as real == k as real + 1.0;
    Distributes(SPEED, k as real, d);
  }

  /** Moving by the speed along the direction is one tick. */
  lemma OneStep(s: Shot, k: nat)
    ensures At(s, k + 1) == (At(s, k).0 + s.dx * SPEED, At(s, k).1 + s.dy * SPEED)
  {
    OneMore(k, s.dx);
    OneMore(k, s.dy);
  }

  /** At tick k with n to go: the bullet was removed as wanted, or the rest is as wanted. */
  ghost predicate OnTrack(s: Shot, hit: (nat, real, real) -> bool, k: nat, n: nat, removed: bool, want: (nat, bool)) {
    if removed then want == (k, true) else Advance(s, hit, k, n) == want
  }

  lemma TrackStep(s: Shot, hit: (nat, real, real) -> bool, k: nat, n: nat, removed: bool, want: (nat, bool))
    requires k > 0 && n > 0 && OnTrack(s, hit, k - 1, n, false, want) && (removed <==> Stops(s, hit, k))
    ensures OnTrack(s, hit, k, n - 1, removed, want)
  {
  }

  /** The answers of one update, counted from the ticks flown before it. */
  function Later(hit: (nat, real, real) -> bool, flown: nat): (nat, real, real) -> bool {
    (k: nat, x: real, y: real) => k > flown && hit(k - flown - 1, x, y)
  }

  lemma LaterAnswers(hit: (nat, real, real) -> bool, flown: nat, k: nat)
    ensures forall px, py :: Later(hit, flown)(flown + k + 1, px, py) == hit(k, px, py)
  {
  }

  class Bullet {
    var x: real
    var y: real
    const targetX: real
    const targetY: real
    ghost const shot: Shot
    ghost var ticks: nat

    /** A bullet still in flight. */
    ghost predicate Flying()
      reads this
    {
      && Unit(shot) && (targetX, targetY) == Target(shot)
      && (x, y) == At(shot, ticks) && Left(ticks) >= 1.0
    }

    constructor (ownerX: real, ownerY: real, cosine: real, sine: real)
      requires cosine * cosine + sine * sine == 1.0
      ensures Flying() && ticks == 0 && shot == Shot(ownerX, ownerY, cosine, sine)
    {
      x := ownerX;
      y := ownerY;
      targetX := ownerX + cosine * RANGE;
      targetY := ownerY + sine * RANGE;
      shot := Shot(ownerX, ownerY, cosine, sine);
      ticks := 0;
    }

    /** calDistance from the bullet to its target. */
    method Distance(sqrt: real -> real) returns (d: real)
      requires IsSqrt(sqrt) && Unit(shot) && ticks <= 22
      requires (targetX, targetY) == Target(shot) && (x, y) == At(shot, ticks)
      ensures d == Left(ticks)
    {
      DistanceLeft(shot, ticks, sqrt);
      d := sqrt(Norm2(x - targetX, y - targetY));
    }

    /** One tick of the loop: normalise the offset and move.  The division is by a distance
        of at least 1. */
    method Advance1(sqrt: real -> real)
      requires Flying() && IsSqrt(sqrt)
      modifies this
      ensures ticks == old(ticks) + 1 && (x, y) == At(shot, ticks)
    {
      var xoffset := targetX - x;
      var yoffset := targetY - y;
      DistanceLeft(shot, ticks, sqrt);
      var l := 1.0 / sqrt(Norm2(xoffset, yoffset));
      Offsets(shot, ticks);
      Normalised(xoffset, Left(ticks), shot.dx, l);
      Normalised(yoffset, Left(ticks), shot.dy, l);
      OneStep(shot, ticks);
      xoffset := xoffset * l;
      yoffset := yoffset * l;
      x := x + xoffset * SPEED;
      y := y + yoffset * SPEED;
      ticks := ticks + 1;
    }

    /** The body of the loop: one tick, and whether the bullet ends with it. */
    method OneTick(k: nat, sqrt: real -> real, hit: (nat, real, real) -> bool, ghost answers: (nat, real, real) -> bool)
      returns (needRemove: bool)
      requires Flying() && IsSqrt(sqrt)
      requires forall px, py :: answers(ticks + 1, px, py) == hit(k, px, py)
      modifies this
      ensures ticks == old(ticks) + 1 && (x, y) == At(shot, ticks)
      ensures needRemove <==> Stops(shot, answers, ticks)
      ensures !needRemove ==> Flying()
    {
      Advance1(sqrt);
      var d := Distance(sqrt);
      needRemove := false;
      if d < 1.0 {
        needRemove := true;
      } else if x <= 0.0 || y <= 0.0 || x >= TankMap.WIDTH || y >= TankMap.HEIGHT {
        needRemove := true;
      }
      if needRemove {
        return;
      }
      var blocked := TankMap.IsBlock(x, y, 1.0);
      if blocked || hit(k, x, y) {
        needRemove := true;
      }
    }

    /** Bullet.update for the ticks that passed since the last call; `hit` answers for the first,
        second and later ticks of this call. */
    method Update(passedTick: int, sqrt: real -> real, hit: (nat, real, real) -> bool) returns (needRemove: bool)
      requires Flying() && IsSqrt(sqrt)
      modifies this
      ensures (ticks, needRemove) == Advance(shot, Later(hit, old(ticks)), old(ticks), if passedTick < 1 then 0 else passedTick)
      ensures (x, y) == At(shot, ticks)
      ensures !needRemove ==> Flying()
    {
      needRemove := false;
      if passedTick < 1 {
        return;
      }
      ghost var answers := Later(hit, ticks);
      ghost var want := Advance(shot, answers, ticks, passedTick);
      ghost var flown := ticks;
      var k: nat := 0;
      while k < passedTick && !needRemove
        invariant k <= passedTick && ticks == flown + k && (x, y) == At(shot, ticks)
        invariant !needRemove ==> Flying()
        invariant OnTrack(shot, answers, ticks, passedTick - k, needRemove, want)
      {
        LaterAnswers(hit, flown, k);
        needRemove := OneTick(k, sqrt, hit, answers);
        TrackStep(shot, answers, ticks, passedTick - k, needRemove, want);
        k := k + 1;
      }
    }
  }

  // ------------------------------------------------------------------ the flight

  /** A live bullet is at distance at least 1 from its target, and at tick 22 it is not. */
  lemma LiveDistance(s: Shot, hit: (nat, real, real) -> bool, k: nat)
    ensures !Stops(s, hit, k) ==> Left(k) >= 1.0 && k < 22
  {
  }

  /** Nothing is in the way of a bullet at (x, y): it is strictly inside the map, at least 1 from
      its target, touches no block and hits no tank. */
  ghost predicate Clear(s: Shot, hit: (nat, real, real) -> bool, k: nat, x: real, y: real) {
    && 0.0 < x < TankMap.WIDTH && 0.0 < y < TankMap.HEIGHT
    && Norm2(Target(s).0 - x, Target(s).1 - y) >= 1.0
    && !TankMap.Blocked(x, y, 1.0)
    && !hit(k, x, y)
  }

  lemma AtLeastOne(a: real)
    requires a >= 0.0
    ensures a * a >= 1.0 <==> a >= 1.0
  {
    if a > 1.0 {
      Positive(a - 1.0, a + 1.0);
      assert a * a - 1.0 == (a - 1.0) * (a + 1.0);
    } else if a < 1.0 {
      Positive(1.0 - a, 1.0 + a);
      assert 1.0 - a * a == (1.0 - a) * (1.0 + a);
    } else {
      assert a == 1.0;
      assert a * a == a * 1.0;
    }
  }

  lemma ClearIff(s: Shot, hit: (nat, real, real) -> bool, k: nat)
    requires Unit(s) && k <= 22
    ensures Clear(s, hit, k, At(s, k).0, At(s, k).1) <==> !Stops(s, hit, k)
  {
    Offsets(s, k);
    Scaled(Left(k), s.dx, s.dy);
    AtLeastOne(Left(k));
  }

  /** A bullet flies on as long as nothing is in its way, and is removed at the first tick at
      which something is. */
  lemma {:induction false} FliesWhileClear(s: Shot, hit: (nat, real, real) -> bool, k: nat, n: nat)
    requires Unit(s) && k < 22
    ensures var (k1, gone) := Advance(s, hit, k, n);
            && (forall j :: k < j < k1 ==> Clear(s, hit, j, At(s, j).0, At(s, j).1))
            && (k < k1 ==> (gone <==> !Clear(s, hit, k1, At(s, k1).0, At(s, k1).1)))
            && (!gone ==> k1 == k + n)
            && (gone ==> k < k1 <= k + n)
    decreases n
  {
    if n > 0 {
      ClearIff(s, hit, k + 1);
      LiveDistance(s, hit, k + 1);
      if !Stops(s, hit, k + 1) {
        FliesWhileClear(s, hit, k + 1, n - 1);
      }
    }
  }

  /** With the same answers at each tick, how the ticks are split over calls of update makes no
      difference. */
  lemma {:induction false} AdvanceSplit(s: Shot, hit: (nat, real, real) -> bool, k: nat, a: nat, b: nat)
    ensures Advance(s, hit, k, a + b)
         == if Advance(s, hit, k, a).1 then Advance(s, hit, k, a) else Advance(s, hit, k + a, b)
    ensures !Advance(s, hit, k, a).1 ==> Advance(s, hit, k, a).0 == k + a
    decreases a
  {
    if a > 0 && !Stops(s, hit, k + 1) {
      AdvanceSplit(s, hit, k + 1, a - 1, b);
    }
  }

  lemma {:induction false} GoneAfter(s: Shot, hit: (nat, real, real) -> bool, k: nat, n: nat)
    requires k < 22 && k + n >= 22
    ensures Advance(s, hit, k, n).1 && Advance(s, hit, k, n).0 <= 22
    decreases n
  {
    LiveDistance(s, hit, k + 1);
    if !Stops(s, hit, k + 1) {
      GoneAfter(s, hit, k + 1, n - 1);
    }
  }

  /** The updates of a bullet, each with the ticks it sees, until it is removed. */
  ghost function Fly(s: Shot, hit: (nat, real, real) -> bool, k: nat, passed: seq<nat>): (nat, bool)
    decreases |passed|
  {
    if passed == [] then (k, false)
    else
      var (k1, gone) := Advance(s, hit, k, passed[0]);
      if gone then (k1, true) else Fly(s, hit, k1, passed[1..])
  }

  function Sum(passed: seq<nat>): nat
    decreases |passed|
  {
    if passed == [] then 0 else passed[0] + Sum(passed[1..])
  }

  /** However its ticks are spread over updates, the flight is that of one long update, and
      the bullet is removed no later than tick 22. */
  lemma {:induction false} FlightEnds(s: Shot, hit: (nat, real, real) -> bool, k: nat, passed: seq<nat>)
    ensures Fly(s, hit, k, passed) == Advance(s, hit, k, Sum(passed))
    ensures k < 22 && k + Sum(passed) >= 22 ==> Fly(s, hit, k, passed).1 && Fly(s, hit, k, passed).0 <= 22
    decreases |passed|
  {
    if passed != [] {
      AdvanceSplit(s, hit, k, passed[0], Sum(passed[1..]));
      FlightEnds(s, hit, Advance(s, hit, k, passed[0]).0, passed[1..]);
    }
    if k < 22 && k + Sum(passed) >= 22 {
      GoneAfter(s, hit, k, Sum(passed));
    }
  }
}
