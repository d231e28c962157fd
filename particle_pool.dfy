/** What the three pyfx particle pools share: the pareto clamps that give a new particle its
    radius and glow intensity, the rule by which `equalize_particles` brings a pool to a
    target size, and the (physical particle, glowing sprite) pair the two glowing pools
    hold. */
module ParticlePool {
  import opened Common

  /** A (physical particle, glowing sprite) pair: where the particle is, the radius and
      intensity it was drawn with, and the sprite's `out_of_frame` flag. */
  datatype Glow = Glow(coord: (real, real), radius: real, intensity: real, outOfFrame: bool)

  /** A glowing pair survives a purge while its sprite is in frame. */
  predicate InFrame(g: Glow) {
    !g.outOfFrame
  }

  /** The pool after every sprite has been written to a frame: each write first clears
      the sprite's flag and then sets it exactly when `lands_off(g)` says that g's sprite
      falls wholly outside that frame, so a flag from an earlier frame does not survive;
      nothing else about a pair changes. */
  function Written(ps: seq<Glow>, landsOff: Glow -> bool): (r: seq<Glow>)
    ensures |r| == |ps|
    ensures forall i :: 0 <= i < |ps| ==> r[i].coord == ps[i].coord && r[i].radius == ps[i].radius && r[i].intensity == ps[i].intensity
    ensures forall i :: 0 <= i < |ps| ==> (r[i].outOfFrame <==> landsOff(ps[i]))
  {
    seq(|ps|, i requires 0 <= i < |ps| => ps[i].(outOfFrame := landsOff(ps[i])))
  }

  /** The radius of a generated particle: the pareto draw plus one, capped at `radius_max`. */
  function ClampedRadius(draw: real, radiusMax: real): (r: real)
    ensures r <= radiusMax
    ensures draw + 1.0 <= radiusMax ==> r == draw + 1.0
    ensures draw >= 0.0 && radiusMax >= 1.0 ==> r >= 1.0
  {
    ParetoClamped(draw, 1.0, radiusMax)
  }

  lemma QuotientAtMostOne(a: real, b: real)
    requires a <= b && b > 0.0
    ensures a / b <= 1.0
  {
    var q := a / b;
    assert q * b == a;
    if q > 1.0 {
      MulMonotone(b, 1.0, q);
    }
  }

  lemma QuotientPositive(a: real, b: real)
    requires a > 0.0 && b > 0.0
    ensures a / b > 0.0
  {
    var q := a / b;
    assert q * b == a;
    if q <= 0.0 {
      MulNonneg(b, -q);
    }
  }

  /** The glow intensity of a generated particle: the pareto draw plus one, capped at
      `intensity_max`, then divided by `intensity_max`. A zero maximum divides by zero. */
  function NormalizedIntensity(draw: real, intensityMax: real): (r: Result<real>)
    ensures r.Err? <==> intensityMax == 0.0
    ensures r.Err? ==> r.error == ZeroDivisionError
    ensures intensityMax > 0.0 ==> r.Ok? && r.value <= 1.0
    ensures intensityMax > 0.0 && draw >= 0.0 ==> r.Ok? && r.value > 0.0
  {
    var b := ParetoClamped(draw, 1.0, intensityMax);
    if intensityMax == 0.0 then Err(ZeroDivisionError)
    else if intensityMax < 0.0 then Ok(b / intensityMax)
    else
      QuotientAtMostOne(b, intensityMax);
      if draw >= 0.0 then QuotientPositive(b, intensityMax); Ok(b / intensityMax)
      else Ok(b / intensityMax)
  }

  /** The `difference` of `equalize_particles`: the target less the current count, rounded. */
  function Difference(count: nat, target: real): int {
    Round(target - count as real)
  }

  /** What `equalize_particles(target)` does to a pool `ps`, where `gen(k)` is the k-th
      particle it would generate. A surplus empties the pool when the target is zero;
      otherwise it draws that many distinct indexes to remove, which fails with
      ValueError when the surplus exceeds the pool, and otherwise fails with
      AttributeError, because the sorted index array has no `reverse`. A deficit appends
      exactly that many new particles; no difference leaves the pool alone. */
  function Equalized<T>(ps: seq<T>, target: real, gen: int -> T): (r: Result<seq<T>>)
    ensures r.Err? <==> Difference(|ps|, target) < 0 && target != 0.0
    ensures r.Err? ==> (r.error == ValueError <==> -Difference(|ps|, target) > |ps|)
    ensures r.Err? ==> r.error == ValueError || r.error == AttributeError
    ensures r.Ok? ==> |r.value| as real - 0.5 <= target <= |r.value| as real + 0.5
    ensures r.Ok? && r.value != [] ==> ps <= r.value
    ensures r.Ok? ==> forall k :: |ps| <= k < |r.value| ==> r.value[k] == gen(k - |ps|)
  {
    var d := Difference(|ps|, target);
    if d < 0 then
      if target == 0.0 then Ok([])
      else if -d > |ps| then Err(ValueError)
      else Err(AttributeError)
    else if d > 0 then Ok(ps + seq(d, gen))
    else Ok(ps)
  }

  /** With a whole-number target that `equalize_particles` can meet, the pool ends up
      with exactly that many particles. */
  lemma EqualizedMeetsWholeTarget<T>(ps: seq<T>, n: nat, gen: int -> T)
    requires n >= |ps| || n == 0
    ensures Equalized(ps, n as real, gen).Ok?
    ensures |Equalized(ps, n as real, gen).value| == n
  {
    RoundOfInt(n - |ps|);
    assert n as real - |ps| as real == (n - |ps|) as real;
  }

  /** A surplus under a non-negative target can never exceed the pool, so the removal
      path always ends in the AttributeError. */
  lemma SurplusIsAttributeError<T>(ps: seq<T>, target: real, gen: int -> T)
    requires target > 0.0 && Difference(|ps|, target) < 0
    ensures Equalized(ps, target, gen) == Err(AttributeError)
  {
    RoundOfInt(-|ps|);
    RoundMonotone(-(|ps| as real), target - |ps| as real);
  }
}
