/**
 * Three-component world-space vectors and the two interpolations the camera code uses:
 * `THREE.MathUtils.lerp(x, y, t) = (1 - t) * x + t * y` on numbers, and the in-place
 * `Vector3.lerp(v, alpha)`, which moves each component by `(v - this) * alpha`.
 * Exact real arithmetic stands in for IEEE doubles.
 */
module Vec {

  datatype Vec3 = Vec3(x: real, y: real, z: real)

  function Min(a: real, b: real): real { if a <= b then a else b }
  function Max(a: real, b: real): real { if a <= b then b else a }
  function Abs(a: real): real { if a < 0.0 then -a else a }

  /** `Math.min(Math.max(x, lo), hi)`, which is also what `THREE.MathUtils.clamp` computes. */
  function Clamp(x: real, lo: real, hi: real): (r: real)
    requires lo <= hi
    ensures lo <= r <= hi
    ensures lo <= x <= hi ==> r == x
    ensures x <= lo ==> r == lo
    ensures x >= hi ==> r == hi
  {
    var atLeast := if x >= lo then x else lo;
    if atLeast <= hi then atLeast else hi
  }

  predicate Between(r: real, a: real, b: real) {
    Min(a, b) <= r <= Max(a, b)
  }

  /** Every component of `v` lies between the matching components of `a` and `b`. */
  predicate BetweenVec(v: Vec3, a: Vec3, b: Vec3) {
    Between(v.x, a.x, b.x) && Between(v.y, a.y, b.y) && Between(v.z, a.z, b.z)
  }

  /** A fraction in [0, 1] of `d` lies between 0 and `d`. */
  lemma FractionBetween(t: real, d: real)
    ensures 0.0 <= t <= 1.0 ==> Between(t * d, 0.0, d)
  {
    if t < 0.0 || t > 1.0 {
    } else if d >= 0.0 {
      NonNegProduct(1.0 - t, d);
      NonNegProduct(t, d);
    } else {
      NonNegProduct(1.0 - t, -d);
      NonNegProduct(t, -d);
    }
  }

  /** Dividing by a positive `d` scales back to `x` and keeps `x`'s position relative to 0 and `d`. */
  lemma Quotient(x: real, d: real)
    requires d > 0.0
    ensures (x / d) * d == x
    ensures x <= 0.0 ==> x / d <= 0.0
    ensures x >= 0.0 ==> x / d >= 0.0
    ensures x <= d ==> x / d <= 1.0
    ensures x >= d ==> x / d >= 1.0
    ensures x > d ==> x / d > 1.0
  {
    var q := x / d;
    assert q * d == x;
    assert (q - 1.0) * d == x - d;
    if q < 0.0 { NonNegProduct(-q, d); }
    if q > 0.0 { NonNegProduct(q, d); }
    if q < 1.0 { NonNegProduct(1.0 - q, d); }
    if q > 1.0 { NonNegProduct(q - 1.0, d); }
  }

  lemma NonNegProduct(a: real, b: real)
    requires a >= 0.0 && b >= 0.0
    ensures a * b >= 0.0
  {
  }

  /** `THREE.MathUtils.lerp`. */
  function Lerp(a: real, b: real, t: real): (r: real)
    ensures t == 0.0 ==> r == a
    ensures t == 1.0 ==> r == b
    ensures 0.0 <= t <= 1.0 ==> Between(r, a, b)
    ensures r - a == t * (b - a)
  {
    var r := (1.0 - t) * a + t * b;
    assert r - a == t * (b - a);
    FractionBetween(t, b - a);
    r
  }

  /** Componentwise `THREE.MathUtils.lerp`, as the controllers build their target points. */
  function LerpVec(a: Vec3, b: Vec3, t: real): (r: Vec3)
    ensures t == 0.0 ==> r == a
    ensures t == 1.0 ==> r == b
    ensures 0.0 <= t <= 1.0 ==> BetweenVec(r, a, b)
  {
    Vec3(Lerp(a.x, b.x, t), Lerp(a.y, b.y, t), Lerp(a.z, b.z, t))
  }

  /** One step of `cur.lerp(target, f)` on one component. */
  function Approach(cur: real, target: real, f: real): (r: real)
    ensures target - r == (1.0 - f) * (target - cur)
    ensures 0.0 <= f <= 1.0 ==> Between(r, cur, target)
    ensures 0.0 <= f <= 1.0 ==> Abs(target - r) == (1.0 - f) * Abs(target - cur)
  {
    FractionBetween(f, target - cur);
    cur + (target - cur) * f
  }

  /** `cur.lerp(target, f)`: the in-place exponential follow of a vector toward a target. */
  function Follow(cur: Vec3, target: Vec3, f: real): (r: Vec3)
    ensures 0.0 <= f <= 1.0 ==> BetweenVec(r, cur, target)
    ensures cur == target ==> r == target
    ensures f == 1.0 ==> r == target
  {
    Vec3(Approach(cur.x, target.x, f), Approach(cur.y, target.y, f), Approach(cur.z, target.z, f))
  }

  /** The per-component distances from `v` to `target`. */
  function Gap(v: Vec3, target: Vec3): Vec3 {
    Vec3(Abs(target.x - v.x), Abs(target.y - v.y), Abs(target.z - v.z))
  }

  function Scale(k: real, v: Vec3): Vec3 {
    Vec3(k * v.x, k * v.y, k * v.z)
  }

  /** A follow step with factor `f` shrinks every component's distance to the target to
      `1 - f` of what it was, without passing the target. */
  lemma FollowContracts(cur: Vec3, target: Vec3, f: real)
    requires 0.0 <= f <= 1.0
    ensures Gap(Follow(cur, target, f), target) == Scale(1.0 - f, Gap(cur, target))
    ensures BetweenVec(Follow(cur, target, f), cur, target)
  {
  }
}
