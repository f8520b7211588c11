/** The spatial relaxation model of src/adaptive_gravity/simulate.py: an effective
    coupling G_eff(r) on a radial grid relaxes towards alpha * rho(r)^2 / mu,
    optionally smoothed by diffusion, and is integrated in place by classical RK4;
    the rotation curve is read off the relaxed field. */
module Simulate {
  import opened RealMath
  import opened NeumannLaplacian

  /** Newton's constant in kpc (km/s)^2 / Msun: the baseline coupling. */
  const G: real := 4.30091e-6

  /** The relaxation parameters of the `arp` configuration block. The configured
      `alpha` is read but never used: the run recalibrates it. */
  datatype ArpParams = ArpParams(alpha: real, mu: real, d: real, r0: real, tUnitsT0: real)

  /** Everything the `rhs` closure captures: the calibrated source strength, the
      relaxation rate, the diffusion coefficient, the grid spacing and the density
      profile. */
  datatype Relaxation = Relaxation(alpha: real, mu: real, diffusion: real, dr: real, rho: seq<real>)

  /** The closure can be evaluated on fields of n points: the density has n points,
      and when diffusion is on, the Laplacian has two points to work with and a
      nonzero spacing. */
  predicate WellFormed(env: Relaxation, n: nat)
  {
    |env.rho| == n && (env.diffusion != 0.0 ==> n >= 2 && env.dr != 0.0)
  }

  /** alpha = mu * G / rho_R0**2: the source strength that balances decay of the
      baseline coupling at the anchor density. */
  function Calibrate(mu: real, rhoR0: real): (alpha: real)
    requires rhoR0 != 0.0
    ensures alpha * (rhoR0 * rhoR0) == mu * G
  {
    OverSquareTimesSquare(mu * G, rhoR0);
    OverSquare(mu * G, rhoR0)
  }

  /** The source term alpha * rho**2. */
  function Source(alpha: real, rho: real): real
  {
    alpha * (rho * rho)
  }

  /** The local part of the right-hand side at one grid point: it vanishes exactly
      where decay balances the source. */
  function PointRhs(alpha: real, mu: real, rho: real, g: real): (r: real)
    ensures r == 0.0 <==> mu * g == Source(alpha, rho)
  {
    Source(alpha, rho) - mu * g
  }

  /** The `rhs` closure: alpha * rho**2 - mu * G, plus D times the Neumann Laplacian
      of G when D is nonzero. */
  function Rhs(env: Relaxation, g: seq<real>): (r: seq<real>)
    requires WellFormed(env, |g|)
    ensures |r| == |g|
  {
    var term := seq(|g|, i requires 0 <= i < |g| => PointRhs(env.alpha, env.mu, env.rho[i], g[i]));
    if env.diffusion != 0.0 then Axpy(term, env.diffusion, Laplacian(g, env.dr)) else term
  }

  /** Entry i of the right-hand side. */
  lemma RhsAt(env: Relaxation, g: seq<real>, i: int)
    requires WellFormed(env, |g|) && 0 <= i < |g|
    ensures env.diffusion == 0.0 ==> Rhs(env, g)[i] == PointRhs(env.alpha, env.mu, env.rho[i], g[i])
    ensures env.diffusion != 0.0 ==>
      Rhs(env, g)[i] == PointRhs(env.alpha, env.mu, env.rho[i], g[i]) + env.diffusion * Laplacian(g, env.dr)[i]
  {
  }

  /** One classical RK4 step of size dt (the body of the `for _ in range(steps)` loop). */
  function Rk4Step(env: Relaxation, dt: real, g: seq<real>): (r: seq<real>)
    requires WellFormed(env, |g|)
    ensures |r| == |g|
  {
    var k1 := Rhs(env, g);
    var k2 := Rhs(env, Axpy(g, 0.5 * dt, k1));
    var k3 := Rhs(env, Axpy(g, 0.5 * dt, k2));
    var k4 := Rhs(env, Axpy(g, dt, k3));
    Add(g, Rk4Increment(dt, k1, k2, k3, k4))
  }

  /** n RK4 steps from g; the closure is evaluated only when a step is taken. */
  function Evolved(env: Relaxation, dt: real, g: seq<real>, n: nat): (r: seq<real>)
    requires n == 0 || WellFormed(env, |g|)
    ensures |r| == |g|
  {
    if n == 0 then g else Rk4Step(env, dt, Evolved(env, dt, g, n - 1))
  }

  /** A field at which the right-hand side vanishes is not moved by an RK4 step. */
  lemma Rk4StepAtRest(env: Relaxation, dt: real, g: seq<real>)
    requires WellFormed(env, |g|)
    requires Rhs(env, g) == Fill(|g|, 0.0)
    ensures Rk4Step(env, dt, g) == g
  {
    var z := Fill(|g|, 0.0);
    AxpyOfZero(g, 0.5 * dt);
    AxpyOfZero(g, dt);
    Rk4IncrementOfZero(dt, |g|);
    AddOfZero(g);
  }

  /** A fixed point of one step is a fixed point of any number of steps. */
  lemma {:induction false} EvolvedAtFixedPoint(env: Relaxation, dt: real, g: seq<real>, n: nat)
    requires WellFormed(env, |g|)
    requires Rk4Step(env, dt, g) == g
    ensures Evolved(env, dt, g, n) == g
  {
    if n > 0 {
      EvolvedAtFixedPoint(env, dt, g, n - 1);
    }
  }

  /** Classical RK4 on the scalar equation x' = alpha * rho**2 - mu * x. */
  function PointRk4(alpha: real, mu: real, rho: real, dt: real, x: real): (y: real)
    ensures mu * x == Source(alpha, rho) ==> y == x
  {
    var k1 := PointRhs(alpha, mu, rho, x);
    var k2 := PointRhs(alpha, mu, rho, x + 0.5 * dt * k1);
    var k3 := PointRhs(alpha, mu, rho, x + 0.5 * dt * k2);
    var k4 := PointRhs(alpha, mu, rho, x + dt * k3);
    x + (dt / 6.0) * (k1 + 2.0 * k2 + 2.0 * k3 + k4)
  }

  /** Without diffusion the grid points are decoupled: each entry of an RK4 step is
      the scalar RK4 step of that entry alone, driven only by its own density. */
  lemma Rk4StepDecoupled(env: Relaxation, dt: real, g: seq<real>, i: int)
    requires WellFormed(env, |g|) && env.diffusion == 0.0 && 0 <= i < |g|
    ensures Rk4Step(env, dt, g)[i] == PointRk4(env.alpha, env.mu, env.rho[i], dt, g[i])
  {
    var k1 := Rhs(env, g);
    var k2 := Rhs(env, Axpy(g, 0.5 * dt, k1));
    var k3 := Rhs(env, Axpy(g, 0.5 * dt, k2));
    var k4 := Rhs(env, Axpy(g, dt, k3));
    var a, m, x := env.alpha, env.mu, env.rho[i];
    RhsAt(env, g, i);
    assert k1[i] == PointRhs(a, m, x, g[i]);
    RhsAt(env, Axpy(g, 0.5 * dt, k1), i);
    assert k2[i] == PointRhs(a, m, x, g[i] + 0.5 * dt * k1[i]);
    RhsAt(env, Axpy(g, 0.5 * dt, k2), i);
    assert k3[i] == PointRhs(a, m, x, g[i] + 0.5 * dt * k2[i]);
    RhsAt(env, Axpy(g, dt, k3), i);
    assert k4[i] == PointRhs(a, m, x, g[i] + dt * k3[i]);
    assert Rk4Step(env, dt, g)[i] == g[i] + Rk4Increment(dt, k1, k2, k3, k4)[i];
  }

  /** n scalar RK4 steps from x. */
  function PointEvolved(alpha: real, mu: real, rho: real, dt: real, x: real, n: nat): (y: real)
    ensures mu * x == Source(alpha, rho) ==> y == x
  {
    if n == 0 then x else PointRk4(alpha, mu, rho, dt, PointEvolved(alpha, mu, rho, dt, x, n - 1))
  }

  /** Without diffusion the whole loop is decoupled: after n steps each entry is the
      scalar RK4 iteration of its own starting value at its own density. */
  lemma {:induction false} EvolvedDecoupled(env: Relaxation, dt: real, g: seq<real>, n: nat, i: int)
    requires WellFormed(env, |g|) && env.diffusion == 0.0 && 0 <= i < |g|
    ensures Evolved(env, dt, g, n)[i] == PointEvolved(env.alpha, env.mu, env.rho[i], dt, g[i], n)
  {
    if n > 0 {
      EvolvedDecoupled(env, dt, g, n - 1, i);
      Rk4StepDecoupled(env, dt, Evolved(env, dt, g, n - 1), i);
    }
  }

  /** The equilibrium alpha * rho**2 / mu of one grid point. */
  function Target(alpha: real, mu: real, rho: real): real
    requires mu != 0.0
  {
    Source(alpha, rho) / mu
  }

  /** At its equilibrium the local right-hand side vanishes. */
  lemma TargetBalances(alpha: real, mu: real, rho: real)
    requires mu != 0.0
    ensures PointRhs(alpha, mu, rho, Target(alpha, mu, rho)) == 0.0
  {
    var s := Source(alpha, rho);
    assert mu * (s / mu) == s;
  }

  /** The equilibrium field alpha * rho**2 / mu over the whole grid. */
  function Steady(env: Relaxation): (s: seq<real>)
    requires env.mu != 0.0
    ensures |s| == |env.rho|
  {
    seq(|env.rho|, i requires 0 <= i < |env.rho| => Target(env.alpha, env.mu, env.rho[i]))
  }

  /** Without diffusion the equilibrium field is a fixed point of the integrator, for
      every number of steps. */
  lemma SteadyIsFixed(env: Relaxation, dt: real, n: nat)
    requires WellFormed(env, |env.rho|) && env.diffusion == 0.0 && env.mu != 0.0
    ensures Rk4Step(env, dt, Steady(env)) == Steady(env)
    ensures Evolved(env, dt, Steady(env), n) == Steady(env)
  {
    var s := Steady(env);
    forall i | 0 <= i < |s| ensures Rhs(env, s)[i] == 0.0 {
      RhsAt(env, s, i);
      TargetBalances(env.alpha, env.mu, env.rho[i]);
    }
    assert Rhs(env, s) == Fill(|s|, 0.0);
    Rk4StepAtRest(env, dt, s);
    EvolvedAtFixedPoint(env, dt, s, n);
  }

  /** After calibration, without diffusion, the baseline coupling G zeroes the
      right-hand side at every grid point whose density is the anchor density. */
  lemma CalibratedAnchor(env: Relaxation, rhoR0: real, g: seq<real>, i: int)
    requires WellFormed(env, |g|) && env.diffusion == 0.0 && rhoR0 != 0.0
    requires env.alpha == Calibrate(env.mu, rhoR0)
    requires 0 <= i < |g| && env.rho[i] == rhoR0 && g[i] == G
    ensures Rhs(env, g)[i] == 0.0
  {
    RhsAt(env, g, i);
  }

  /** When the whole density profile sits at the anchor density, the calibrated
      baseline field is at rest even with diffusion, since a uniform field has zero
      Neumann Laplacian: the run then returns the baseline unchanged. */
  lemma CalibratedUniformAtRest(env: Relaxation, rhoR0: real, dt: real, n: nat, steps: nat)
    requires WellFormed(env, n) && rhoR0 != 0.0
    requires env.rho == Fill(n, rhoR0) && env.alpha == Calibrate(env.mu, rhoR0)
    ensures Rhs(env, Fill(n, G)) == Fill(n, 0.0)
    ensures Evolved(env, dt, Fill(n, G), steps) == Fill(n, G)
  {
    var g := Fill(n, G);
    UniformRhsVanishes(env, rhoR0, n);
    Rk4StepAtRest(env, dt, g);
    EvolvedAtFixedPoint(env, dt, g, steps);
  }

  /** On a profile at the anchor density, the calibrated source, the decay of G and the
      Laplacian of the constant field all cancel: rhs of the baseline field is zero. */
  lemma UniformRhsVanishes(env: Relaxation, rhoR0: real, n: nat)
    requires WellFormed(env, n) && rhoR0 != 0.0
    requires env.rho == Fill(n, rhoR0) && env.alpha == Calibrate(env.mu, rhoR0)
    ensures Rhs(env, Fill(n, G)) == Fill(n, 0.0)
  {
    var g := Fill(n, G);
    if env.diffusion != 0.0 {
      LaplacianOfConstant(n, G, env.dr);
    }
    forall i | 0 <= i < n ensures Rhs(env, g)[i] == 0.0 {
      RhsAt(env, g, i);
    }
    assert Rhs(env, g) == Fill(n, 0.0);
  }

  /** steps = int(t_units_T0 * T0 / dt) with dt = T0 / 800; a zero period makes the
      float division fail. */
  function StepCount(tUnitsT0: real, t0: real): (r: Result<int>)
    ensures r.Err? <==> t0 == 0.0
    ensures r.Err? ==> r.error == ZeroDivisionError
  {
    if t0 == 0.0 then Err(ZeroDivisionError) else Ok(Trunc(tUnitsT0 * t0 / (t0 / 800.0)))
  }

  /** The period cancels: the run takes int(800 * t_units_T0) steps, 1600 for the
      default two periods. */
  lemma StepCountValue(tUnitsT0: real, t0: real)
    requires t0 != 0.0
    ensures StepCount(tUnitsT0, t0) == Ok(Trunc(800.0 * tUnitsT0))
    ensures tUnitsT0 == 2.0 ==> StepCount(tUnitsT0, t0) == Ok(1600)
  {
    var p := tUnitsT0 * t0;
    var q := t0 / 800.0;
    assert q * 800.0 == t0;
    assert (800.0 * tUnitsT0) * q == p;
    assert p / q == 800.0 * tUnitsT0;
  }

  /** Mb * r**2 / (r + a)**2: the mass of a Hernquist bulge inside radius r. */
  function HernquistM(r: real, mb: real, a: real): (m: real)
    requires r + a != 0.0
    ensures r == 0.0 ==> m == 0.0
  {
    OverSquare(mb * (r * r), r + a)
  }

  /** The bulge encloses no mass at the centre, and outside it encloses a fraction of
      its total mass, never all of it. */
  lemma HernquistMBounds(r: real, mb: real, a: real)
    requires r >= 0.0 && a > 0.0 && mb > 0.0
    ensures HernquistM(0.0, mb, a) == 0.0
    ensures 0.0 <= HernquistM(r, mb, a) < mb
  {
    EnclosedFraction(r, r + a, mb);
  }

  /** The clamped velocity radicand max(G * M / r, 0). */
  function Radicand(g: real, m: real, r: real): (q: real)
    requires r != 0.0
    ensures q >= 0.0
    ensures g * m / r <= 0.0 ==> q == 0.0
    ensures g * m / r >= 0.0 ==> q == g * m / r
  {
    Max0(g * m / r)
  }

  /** The circular velocity sqrt(max(G * M / r, 0)). */
  function Velocity(sqrt: Sqrt, g: real, m: real, r: real): (v: real)
    requires r != 0.0
    ensures v >= 0.0
    ensures g * m / r <= 0.0 ==> v == 0.0
    ensures g * m / r >= 0.0 ==> v == sqrt(g * m / r)
  {
    sqrt(Radicand(g, m, r))
  }

  /** For a nonnegative coupling and mass at a positive radius the clamp never fires. */
  lemma VelocityUnclamped(sqrt: Sqrt, g: real, m: real, r: real)
    requires g >= 0.0 && m >= 0.0 && r > 0.0
    ensures Velocity(sqrt, g, m, r) == sqrt(g * m / r)
  {
    assert g * m >= 0.0;
    NonnegativeQuotient(g * m, r);
  }

  /** The rotation curve over the whole grid. */
  function Velocities(sqrt: Sqrt, g: seq<real>, m: seq<real>, r: seq<real>): (v: seq<real>)
    requires |g| == |m| == |r|
    requires forall i :: 0 <= i < |r| ==> r[i] != 0.0
    ensures |v| == |g|
    ensures forall i :: 0 <= i < |v| ==> v[i] == Velocity(sqrt, g[i], m[i], r[i])
  {
    seq(|g|, i requires 0 <= i < |g| => Velocity(sqrt, g[i], m[i], r[i]))
  }

  /** What `run` computes: the relaxed coupling and the rotation curve. */
  datatype Profile = Profile(geff: seq<real>, v: seq<real>)

  /** The calibrated closure of a run. */
  function Environment(arp: ArpParams, rhoR0: real, rho: seq<real>, dr: real): Relaxation
    requires rhoR0 != 0.0
  {
    Relaxation(Calibrate(arp.mu, rhoR0), arp.mu, arp.d, dr, rho)
  }

  /** The RK4 loop of `run`: the baseline field G, stepped in place `steps` times. */
  method Relax(env: Relaxation, dt: real, n: nat, steps: nat) returns (g: seq<real>)
    requires |env.rho| == n && (steps == 0 || WellFormed(env, n))
    ensures g == Evolved(env, dt, Fill(n, G), steps)
  {
    var geff := new real[n](_ => G);
    assert geff[..] == Fill(n, G);
    var s := 0;
    while s < steps
      invariant 0 <= s <= steps
      invariant geff[..] == Evolved(env, dt, Fill(n, G), s)
    {
      Advance(env, dt, geff, s);
      s := s + 1;
    }
    assert s == steps;
    g := geff[..];
  }

  /** One pass of the loop, stated against the specification: from the field after s
      steps to the field after s + 1. */
  method Advance(env: Relaxation, dt: real, geff: array<real>, ghost s: nat)
    requires WellFormed(env, geff.Length)
    requires geff[..] == Evolved(env, dt, Fill(geff.Length, G), s)
    modifies geff
    ensures geff[..] == Evolved(env, dt, Fill(geff.Length, G), s + 1)
  {
    Step(env, dt, geff);
  }

  /** The loop body: the four stages and `Geff += (dt / 6) * (k1 + 2 k2 + 2 k3 + k4)`. */
  method Step(env: Relaxation, dt: real, geff: array<real>)
    requires WellFormed(env, geff.Length)
    modifies geff
    ensures geff[..] == Rk4Step(env, dt, old(geff[..]))
  {
    var cur := geff[..];
    var k1 := Rhs(env, cur);
    var k2 := Rhs(env, Axpy(cur, 0.5 * dt, k1));
    var k3 := Rhs(env, Axpy(cur, 0.5 * dt, k2));
    var k4 := Rhs(env, Axpy(cur, dt, k3));
    AddInPlace(geff, Rk4Increment(dt, k1, k2, k3, k4));
  }

  /** The orbital period T0 = 2 pi R0 / V0 at the anchor radius. */
  function Period(r0: real, v0: real): (t0: real)
    requires v0 != 0.0
    ensures t0 == 0.0 <==> r0 == 0.0
  {
    ZeroQuotient(2.0 * PI * r0, v0);
    2.0 * PI * r0 / v0
  }

  /** The RK4 step dt = T0 / 800: an 800th of the period, zero exactly when the
      anchor radius is. */
  function TimeStep(r0: real, v0: real): (dt: real)
    requires v0 != 0.0
    ensures 800.0 * dt == Period(r0, v0)
    ensures dt == 0.0 <==> r0 == 0.0
  {
    Period(r0, v0) / 800.0
  }

  /** The grid spacing r[1] - r[0] of np.linspace(rMin, rMax, nr). */
  lemma SpacingNonzero(rMin: real, rMax: real, nr: nat)
    requires nr >= 2 && rMin != rMax
    ensures Linspace(rMin, rMax, nr)[1] - Linspace(rMin, rMax, nr)[0] != 0.0
  {
    NonzeroQuotient(rMax - rMin, (nr - 1) as real);
  }

  /** The divisions of `run` that numpy would turn into inf or nan, on the path where
      `run` reaches them: past the IndexError of r[1] and the ZeroDivisionError of T0
      and of the step count, it divides by rho_R0 in the calibration and by every
      radius in the velocity, and when diffusion is on and at least one step is
      taken, by the spacing dr in the Laplacian. */
  predicate RunDivisions(arp: ArpParams, rMin: real, rMax: real, nr: nat, anchorR0: real, v0: real,
                         rhoR0: real)
  {
    nr >= 2 && v0 != 0.0 && anchorR0 != 0.0 ==>
      && rhoR0 != 0.0
      && (forall i :: 0 <= i < nr ==> Linspace(rMin, rMax, nr)[i] != 0.0)
      && (arp.d != 0.0 && Trunc(800.0 * arp.tUnitsT0) > 0 ==> rMin != rMax)
  }

  /** What `run` computes on the grid np.linspace(rMin, rMax, nr), with density and
      enclosed mass given on that grid and rho_R0 already interpolated. Indexing r[1]
      fails on a grid of fewer than two points, and T0 = 2 pi R0 / V0 and the step
      count divide by Python floats; otherwise the result is the baseline G evolved by
      `steps` RK4 steps of size T0 / 800 and the clamped velocity of that field. */
  function RunResult(arp: ArpParams, rMin: real, rMax: real, nr: nat, anchorR0: real, v0: real,
                     rho: seq<real>, mEnc: seq<real>, rhoR0: real, sqrt: Sqrt): (res: Result<Profile>)
    requires |rho| == nr && |mEnc| == nr
    requires RunDivisions(arp, rMin, rMax, nr, anchorR0, v0, rhoR0)
    ensures nr < 2 ==> res == Err(IndexError)
    ensures nr >= 2 && (v0 == 0.0 || anchorR0 == 0.0) ==> res == Err(ZeroDivisionError)
    ensures nr >= 2 && v0 != 0.0 && anchorR0 != 0.0 ==> res.Ok?
    ensures res.Ok? ==> |res.value.geff| == nr && |res.value.v| == nr
    ensures res.Ok? ==> forall i :: 0 <= i < nr ==> res.value.v[i] >= 0.0
  {
    var r := Linspace(rMin, rMax, nr);
    if nr < 2 then Err(IndexError)
    else if v0 == 0.0 then Err(ZeroDivisionError)
    else
      var t0 := Period(anchorR0, v0);
      var count := StepCount(arp.tUnitsT0, t0);
      if count.Err? then Err(count.error)
      else
        StepCountValue(arp.tUnitsT0, t0);
        var env := Environment(arp, rhoR0, rho, r[1] - r[0]);
        var steps := RangeLength(count.value);
        SpacingWellFormed(env, arp, rMin, rMax, nr, rho, rhoR0, steps);
        var g := Evolved(env, TimeStep(anchorR0, v0), Fill(nr, G), steps);
        Ok(Profile(g, Velocities(sqrt, g, mEnc, r)))
  }

  lemma SpacingWellFormed(env: Relaxation, arp: ArpParams, rMin: real, rMax: real, nr: nat,
                          rho: seq<real>, rhoR0: real, steps: nat)
    requires nr >= 2 && |rho| == nr && rhoR0 != 0.0
    requires arp.d != 0.0 && steps > 0 ==> rMin != rMax
    requires env == Environment(arp, rhoR0, rho, Linspace(rMin, rMax, nr)[1] - Linspace(rMin, rMax, nr)[0])
    ensures |env.rho| == nr
    ensures steps > 0 ==> WellFormed(env, nr)
  {
    if arp.d != 0.0 && steps > 0 {
      SpacingNonzero(rMin, rMax, nr);
    }
  }

  /** `run`: the same checks in the same order, then the RK4 loop on an array. */
  method Run(arp: ArpParams, rMin: real, rMax: real, nr: nat, anchorR0: real, v0: real,
             rho: seq<real>, mEnc: seq<real>, rhoR0: real, sqrt: Sqrt)
    returns (res: Result<Profile>)
    requires |rho| == nr && |mEnc| == nr
    requires RunDivisions(arp, rMin, rMax, nr, anchorR0, v0, rhoR0)
    ensures res == RunResult(arp, rMin, rMax, nr, anchorR0, v0, rho, mEnc, rhoR0, sqrt)
  {
    var r := Linspace(rMin, rMax, nr);
    if nr < 2 {
      return Err(IndexError);
    }
    var dr := r[1] - r[0];
    if v0 == 0.0 {
      return Err(ZeroDivisionError);
    }
    var t0 := Period(anchorR0, v0);
    var count := StepCount(arp.tUnitsT0, t0);
    if count.Err? {
      return Err(count.error);
    }
    StepCountValue(arp.tUnitsT0, t0);
    var env := Environment(arp, rhoR0, rho, dr);
    var steps := RangeLength(count.value);
    SpacingWellFormed(env, arp, rMin, rMax, nr, rho, rhoR0, steps);
    var g := Relax(env, TimeStep(anchorR0, v0), nr, steps);
    assert g == Evolved(env, TimeStep(anchorR0, v0), Fill(nr, G), steps);
    return Ok(Profile(g, Velocities(sqrt, g, mEnc, r)));
  }
}
