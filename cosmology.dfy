/** The homogeneous cosmology of src/adaptive_gravity/cosmology.py: the scale factor
    a, two coupling channels Gc and Gh and an extra energy density rho_L, integrated
    by classical RK4 with one recorded row per step and one final row. */
module Cosmology {
  import opened RealMath

  /** The parameters the integrator reads from the configuration. */
  datatype Pars = Pars(
    lambdaH: real,  // weight of the Gh channel in the expansion rate
    om: real,       // matter density today
    or: real,       // radiation density today
    alphaC: real,   // Gc source strength
    muC: real,      // Gc relaxation rate
    betaH: real,    // Gh source strength
    aC: real,       // scale factor at which the Gh source switches off
    gammaH: real,   // Gh relaxation rate
    kappa: real,    // strength of the holographic rho_L term
    rhoHolo: real,  // holographic density scale
    lp2: real)      // squared Planck length

  /** The two parameters that divide inside `rhs` are nonzero. */
  predicate Admissible(p: Pars)
  {
    p.aC != 0.0 && p.lp2 != 0.0
  }

  /** x / a**3, written as three divisions by a (equal over the reals). */
  function OverCube(x: real, a: real): real
    requires a != 0.0
  {
    x / a / a / a
  }

  /** x / a**4, written as four divisions by a. */
  function OverFourth(x: real, a: real): real
    requires a != 0.0
  {
    x / a / a / a / a
  }

  /** H**2 = (8 pi / 3) (Gc + lambda_h Gh) (Om / a**3 + Or / a**4) + 8 pi rho_L / 3. */
  function HubbleSquared(a: real, gc: real, gh: real, rhoL: real, p: Pars): (h2: real)
    requires a != 0.0
    ensures gc + p.lambdaH * gh == 0.0 ==> h2 == (8.0 * PI * rhoL) / 3.0
  {
    (8.0 * PI / 3.0) * (gc + p.lambdaH * gh) * (OverCube(p.om, a) + OverFourth(p.or, a))
      + (8.0 * PI * rhoL) / 3.0
  }

  /** With nonnegative densities and couplings and a positive scale factor the
      radicand is nonnegative, so the clamp of `_compute_H` does not fire. */
  lemma HubbleSquaredNonnegative(a: real, gc: real, gh: real, rhoL: real, p: Pars)
    requires a > 0.0 && p.om >= 0.0 && p.or >= 0.0 && gc + p.lambdaH * gh >= 0.0 && rhoL >= 0.0
    ensures HubbleSquared(a, gc, gh, rhoL, p) >= 0.0
  {
    NonnegativeQuotient(p.om, a);
    NonnegativeQuotient(p.om / a, a);
    NonnegativeQuotient(p.om / a / a, a);
    NonnegativeQuotient(p.or, a);
    NonnegativeQuotient(p.or / a, a);
    NonnegativeQuotient(p.or / a / a, a);
    NonnegativeQuotient(p.or / a / a / a, a);
    var c, d := gc + p.lambdaH * gh, OverCube(p.om, a) + OverFourth(p.or, a);
    ProductNonnegative(8.0 * PI / 3.0, c);
    ProductNonnegative(8.0 * PI / 3.0 * c, d);
  }

  /** `_compute_H`: the Hubble rate, the square root of H**2 clamped at zero. */
  function ComputeH(a: real, gc: real, gh: real, rhoL: real, p: Pars, sqrt: Sqrt): (h: real)
    requires a != 0.0
    ensures h >= 0.0
    ensures HubbleSquared(a, gc, gh, rhoL, p) <= 0.0 ==> h == 0.0
    ensures HubbleSquared(a, gc, gh, rhoL, p) >= 0.0 ==> h == sqrt(HubbleSquared(a, gc, gh, rhoL, p))
  {
    sqrt(Max0(HubbleSquared(a, gc, gh, rhoL, p)))
  }

  /** dGc = alpha_c rho_m**2 - mu_c Gc, with rho_m = Om / a**3. */
  function DGc(p: Pars, a: real, gc: real): (r: real)
    requires a != 0.0
    ensures p.alphaC == 0.0 && p.muC == 0.0 ==> r == 0.0
    ensures r == 0.0 <==> p.muC * gc == p.alphaC * (OverCube(p.om, a) * OverCube(p.om, a))
  {
    var rhoM := OverCube(p.om, a);
    p.alphaC * (rhoM * rhoM) - p.muC * gc
  }

  /** dGh = beta_h (rho_g H) exp(-a / a_c) - gamma_h Gh, with rho_g = Or / a**4. */
  function DGh(p: Pars, a: real, gh: real, h: real, exp: real -> real): (r: real)
    requires a != 0.0 && p.aC != 0.0
    ensures p.betaH == 0.0 && p.gammaH == 0.0 ==> r == 0.0
    ensures h == 0.0 ==> r == -(p.gammaH * gh)
  {
    var rhoG := OverFourth(p.or, a);
    p.betaH * (rhoG * h) * exp(-a / p.aC) - p.gammaH * gh
  }

  /** dRhoL = kappa ((2 a) rho_holo / Lp2 H) - 2 kappa Lp2 rho_holo H / a**3. */
  function DRhoL(p: Pars, a: real, h: real): (r: real)
    requires a != 0.0 && p.lp2 != 0.0
    ensures p.kappa == 0.0 ==> r == 0.0
    ensures h == 0.0 ==> r == 0.0
  {
    p.kappa * ((2.0 * a) * p.rhoHolo / p.lp2 * h) - OverCube(2.0 * p.kappa * p.lp2 * p.rhoHolo * h, a)
  }

  /** `rhs`: the time derivative of [a, Gc, Gh, rho_L], in that order. The time
      argument is not used. */
  function Rhs(p: Pars, t: real, y: seq<real>, sqrt: Sqrt, exp: real -> real): (r: seq<real>)
    requires Admissible(p) && |y| == 4 && y[0] != 0.0
    ensures |r| == 4
    ensures r[0] == Expansion(y[0], ComputeH(y[0], y[1], y[2], y[3], p, sqrt))
    ensures r[1] == DGc(p, y[0], y[1])
    ensures r[2] == DGh(p, y[0], y[2], ComputeH(y[0], y[1], y[2], y[3], p, sqrt), exp)
    ensures r[3] == DRhoL(p, y[0], ComputeH(y[0], y[1], y[2], y[3], p, sqrt))
  {
    var a, gc, gh, rhoL := y[0], y[1], y[2], y[3];
    var h := ComputeH(a, gc, gh, rhoL, p, sqrt);
    [Expansion(a, h), DGc(p, a, gc), DGh(p, a, gh, h, exp), DRhoL(p, a, h)]
  }

  /** da/dt = a H: never negative while the scale factor is positive, since the
      clamped Hubble rate is never negative. */
  function Expansion(a: real, h: real): (r: real)
    ensures a >= 0.0 && h >= 0.0 ==> r >= 0.0
  {
    ProductNonnegative(a, h);
    a * h
  }

  lemma ProductNonnegative(x: real, y: real)
    ensures x >= 0.0 && y >= 0.0 ==> x * y >= 0.0
  {
  }

  /** Each channel is switched off by zeroing its rates: dGc vanishes when
      alpha_c = mu_c = 0, dGh when beta_h = gamma_h = 0 and dRhoL when kappa = 0. */
  lemma ChannelsOff(p: Pars, t: real, y: seq<real>, sqrt: Sqrt, exp: real -> real)
    requires Admissible(p) && |y| == 4 && y[0] != 0.0
    ensures p.alphaC == 0.0 && p.muC == 0.0 ==> Rhs(p, t, y, sqrt, exp)[1] == 0.0
    ensures p.betaH == 0.0 && p.gammaH == 0.0 ==> Rhs(p, t, y, sqrt, exp)[2] == 0.0
    ensures p.kappa == 0.0 ==> Rhs(p, t, y, sqrt, exp)[3] == 0.0
  {
    if p.kappa == 0.0 {
      var h := ComputeH(y[0], y[1], y[2], y[3], p, sqrt);
      assert 2.0 * p.kappa * p.lp2 * p.rhoHolo * h == 0.0;
    }
  }

  /** The derivative does not depend on the time argument. */
  lemma RhsTimeIndependent(p: Pars, t: real, s: real, y: seq<real>, sqrt: Sqrt, exp: real -> real)
    requires Admissible(p) && |y| == 4 && y[0] != 0.0
    ensures Rhs(p, t, y, sqrt, exp) == Rhs(p, s, y, sqrt, exp)
  {
  }

  /** The four RK4 stages can be evaluated: the scale factor is nonzero at each of
      them (the derivative divides by it). */
  predicate StepDefined(p: Pars, t: real, dt: real, y: seq<real>, sqrt: Sqrt, exp: real -> real)
    requires Admissible(p) && |y| == 4
  {
    y[0] != 0.0 &&
    var k1 := Rhs(p, t, y, sqrt, exp);
    Axpy(y, 0.5 * dt, k1)[0] != 0.0 &&
    var k2 := Rhs(p, t + 0.5 * dt, Axpy(y, 0.5 * dt, k1), sqrt, exp);
    Axpy(y, 0.5 * dt, k2)[0] != 0.0 &&
    var k3 := Rhs(p, t + 0.5 * dt, Axpy(y, 0.5 * dt, k2), sqrt, exp);
    Axpy(y, dt, k3)[0] != 0.0
  }

  /** One classical RK4 step of the loop in `run`. */
  function Rk4Step(p: Pars, t: real, dt: real, y: seq<real>, sqrt: Sqrt, exp: real -> real): (r: seq<real>)
    requires Admissible(p) && |y| == 4 && StepDefined(p, t, dt, y, sqrt, exp)
    ensures |r| == 4
  {
    var k1 := Rhs(p, t, y, sqrt, exp);
    var k2 := Rhs(p, t + 0.5 * dt, Axpy(y, 0.5 * dt, k1), sqrt, exp);
    var k3 := Rhs(p, t + 0.5 * dt, Axpy(y, 0.5 * dt, k2), sqrt, exp);
    var k4 := Rhs(p, t + dt, Axpy(y, dt, k3), sqrt, exp);
    Add(y, Rk4Increment(dt, k1, k2, k3, k4))
  }

  /** A state at which the derivative vanishes is not moved by an RK4 step. */
  lemma Rk4StepAtRest(p: Pars, t: real, dt: real, y: seq<real>, sqrt: Sqrt, exp: real -> real)
    requires Admissible(p) && |y| == 4 && y[0] != 0.0
    requires Rhs(p, t, y, sqrt, exp) == [0.0, 0.0, 0.0, 0.0]
    ensures StepDefined(p, t, dt, y, sqrt, exp)
    ensures Rk4Step(p, t, dt, y, sqrt, exp) == y
  {
    assert Fill(4, 0.0) == [0.0, 0.0, 0.0, 0.0];
    AxpyOfZero(y, 0.5 * dt);
    AxpyOfZero(y, dt);
    RhsTimeIndependent(p, t, t + 0.5 * dt, y, sqrt, exp);
    RhsTimeIndependent(p, t, t + dt, y, sqrt, exp);
    Rk4IncrementOfZero(dt, 4);
    AddOfZero(y);
  }

  /** Going forward in time from a positive scale factor, every stage of an RK4 step
      has a scale factor at least as large, so the step is defined and the universe
      does not contract: the clamped Hubble rate is never negative. */
  lemma Rk4StepExpands(p: Pars, t: real, dt: real, y: seq<real>, sqrt: Sqrt, exp: real -> real)
    requires Admissible(p) && |y| == 4 && y[0] > 0.0 && dt >= 0.0
    ensures StepDefined(p, t, dt, y, sqrt, exp)
    ensures Rk4Step(p, t, dt, y, sqrt, exp)[0] >= y[0]
  {
    ExpansionNonnegative(p, t, y, sqrt, exp);
    var k1 := Rhs(p, t, y, sqrt, exp);
    StageForward(p, t + 0.5 * dt, 0.5 * dt, y, k1, sqrt, exp);
    var k2 := Rhs(p, t + 0.5 * dt, Axpy(y, 0.5 * dt, k1), sqrt, exp);
    StageForward(p, t + 0.5 * dt, 0.5 * dt, y, k2, sqrt, exp);
    var k3 := Rhs(p, t + 0.5 * dt, Axpy(y, 0.5 * dt, k2), sqrt, exp);
    StageForward(p, t + dt, dt, y, k3, sqrt, exp);
    var k4 := Rhs(p, t + dt, Axpy(y, dt, k3), sqrt, exp);
    Rk4Forward(y, dt, k1, k2, k3, k4);
  }

  /** A forward stage from a positive scale factor has a scale factor at least as
      large, and so a nonnegative expansion rate. */
  lemma StageForward(p: Pars, s: real, c: real, y: seq<real>, k: seq<real>, sqrt: Sqrt, exp: real -> real)
    requires Admissible(p) && |y| == 4 && |k| == 4 && y[0] > 0.0 && c >= 0.0 && k[0] >= 0.0
    ensures Axpy(y, c, k)[0] >= y[0]
    ensures Rhs(p, s, Axpy(y, c, k), sqrt, exp)[0] >= 0.0
  {
    ForwardStage(y, c, k);
    ExpansionNonnegative(p, s, Axpy(y, c, k), sqrt, exp);
  }

  /** For a positive scale factor the expansion component of the derivative is never
      negative. */
  lemma ExpansionNonnegative(p: Pars, t: real, y: seq<real>, sqrt: Sqrt, exp: real -> real)
    requires Admissible(p) && |y| == 4 && y[0] > 0.0
    ensures Rhs(p, t, y, sqrt, exp)[0] >= 0.0
  {
    var h := ComputeH(y[0], y[1], y[2], y[3], p, sqrt);
    assert Rhs(p, t, y, sqrt, exp)[0] == Expansion(y[0], h);
  }

  /** A forward stage y + c k with c >= 0 and k[0] >= 0 does not lower the scale factor. */
  lemma ForwardStage(y: seq<real>, c: real, k: seq<real>)
    requires |y| == |k| == 4 && c >= 0.0 && k[0] >= 0.0
    ensures Axpy(y, c, k)[0] >= y[0]
  {
    ProductNonnegative(c, k[0]);
  }

  /** Nor does the RK4 update with a nonnegative step and nonnegative slopes. */
  lemma Rk4Forward(y: seq<real>, dt: real, k1: seq<real>, k2: seq<real>, k3: seq<real>, k4: seq<real>)
    requires |y| == |k1| == |k2| == |k3| == |k4| == 4 && dt >= 0.0
    requires k1[0] >= 0.0 && k2[0] >= 0.0 && k3[0] >= 0.0 && k4[0] >= 0.0
    ensures Add(y, Rk4Increment(dt, k1, k2, k3, k4))[0] >= y[0]
  {
    ProductNonnegative(dt / 6.0, k1[0] + 2.0 * k2[0] + 2.0 * k3[0] + k4[0]);
  }

  /** With every coupling rate and kappa zero, an RK4 step changes only the scale
      factor: Gc, Gh and rho_L stay where they are. */
  lemma Rk4StepFrozenChannels(p: Pars, t: real, dt: real, y: seq<real>, sqrt: Sqrt, exp: real -> real)
    requires Admissible(p) && |y| == 4 && StepDefined(p, t, dt, y, sqrt, exp)
    requires p.alphaC == 0.0 && p.muC == 0.0 && p.betaH == 0.0 && p.gammaH == 0.0 && p.kappa == 0.0
    ensures Rk4Step(p, t, dt, y, sqrt, exp)[1..] == y[1..]
  {
    var k1 := Rhs(p, t, y, sqrt, exp);
    var y2 := Axpy(y, 0.5 * dt, k1);
    var k2 := Rhs(p, t + 0.5 * dt, y2, sqrt, exp);
    var y3 := Axpy(y, 0.5 * dt, k2);
    var k3 := Rhs(p, t + 0.5 * dt, y3, sqrt, exp);
    var y4 := Axpy(y, dt, k3);
    var k4 := Rhs(p, t + dt, y4, sqrt, exp);
    ChannelsOff(p, t, y, sqrt, exp);
    ChannelsOff(p, t + 0.5 * dt, y2, sqrt, exp);
    ChannelsOff(p, t + 0.5 * dt, y3, sqrt, exp);
    ChannelsOff(p, t + dt, y4, sqrt, exp);
    var r := Rk4Step(p, t, dt, y, sqrt, exp);
    assert r[1] == y[1] && r[2] == y[2] && r[3] == y[3];
  }

  /** One row of the recorded table: [t, a, Gc, Gh, rho_L, H]. */
  datatype Row = Row(t: real, a: real, gc: real, gh: real, rhoL: real, h: real)

  /** The row recorded for state y at time t. */
  function Record(p: Pars, t: real, y: seq<real>, sqrt: Sqrt): (row: Row)
    requires |y| == 4 && y[0] != 0.0
    ensures row.h >= 0.0
  {
    Row(t, y[0], y[1], y[2], y[3], ComputeH(y[0], y[1], y[2], y[3], p, sqrt))
  }

  /** The state a row records. */
  function RowState(row: Row): (y: seq<real>)
    ensures |y| == 4
  {
    [row.a, row.gc, row.gh, row.rhoL]
  }

  /** The time after k passes of `t += dt`. */
  function TimeAfter(t: real, dt: real, k: nat): (tk: real)
    ensures dt == 0.0 ==> tk == t
    ensures dt >= 0.0 ==> tk >= t
  {
    if k == 0 then t else TimeAfter(t, dt, k - 1) + dt
  }

  /** Adding dt k times to t gives t + k dt. */
  lemma {:induction false} TimeAfterClosedForm(t: real, dt: real, k: nat)
    ensures TimeAfter(t, dt, k) == t + k as real * dt
  {
    if k > 0 {
      TimeAfterClosedForm(t, dt, k - 1);
      assert (k - 1) as real * dt + dt == k as real * dt;
    }
  }

  /** The first k RK4 steps of `run` from y at time t can be taken: the scale factor is
      nonzero at every state up to the k-th and at every stage in between. */
  predicate Defined(p: Pars, t: real, dt: real, y: seq<real>, k: nat, sqrt: Sqrt, exp: real -> real)
    requires |y| == 4
    decreases k, 0
  {
    y[0] != 0.0 &&
    (k > 0 ==>
      Admissible(p) &&
      Defined(p, t, dt, y, k - 1, sqrt, exp) &&
      StepDefined(p, TimeAfter(t, dt, k - 1), dt, State(p, t, dt, y, k - 1, sqrt, exp), sqrt, exp) &&
      Rk4Step(p, TimeAfter(t, dt, k - 1), dt, State(p, t, dt, y, k - 1, sqrt, exp), sqrt, exp)[0] != 0.0)
  }

  /** The state after k RK4 steps from y at time t. */
  function State(p: Pars, t: real, dt: real, y: seq<real>, k: nat, sqrt: Sqrt, exp: real -> real)
    : (s: seq<real>)
    requires |y| == 4 && Defined(p, t, dt, y, k, sqrt, exp)
    ensures |s| == 4 && s[0] != 0.0
    decreases k, 1
  {
    if k == 0 then y
    else Rk4Step(p, TimeAfter(t, dt, k - 1), dt, State(p, t, dt, y, k - 1, sqrt, exp), sqrt, exp)
  }

  /** Steps that can be taken n times can be taken any k <= n times. */
  lemma {:induction false} DefinedPrefix(p: Pars, t: real, dt: real, y: seq<real>, n: nat, k: nat,
                                         sqrt: Sqrt, exp: real -> real)
    requires |y| == 4 && Defined(p, t, dt, y, n, sqrt, exp) && k <= n
    ensures Defined(p, t, dt, y, k, sqrt, exp)
    decreases n
  {
    if k < n {
      DefinedPrefix(p, t, dt, y, n - 1, k, sqrt, exp);
    }
  }

  /** Forward in time from a positive scale factor every number of steps can be taken,
      and the scale factor never drops below its initial value. */
  lemma {:induction false} ForwardDefined(p: Pars, t: real, dt: real, y: seq<real>, k: nat,
                                          sqrt: Sqrt, exp: real -> real)
    requires Admissible(p) && |y| == 4 && y[0] > 0.0 && dt >= 0.0
    ensures Defined(p, t, dt, y, k, sqrt, exp)
    ensures State(p, t, dt, y, k, sqrt, exp)[0] >= y[0]
    decreases k
  {
    if k > 0 {
      ForwardDefined(p, t, dt, y, k - 1, sqrt, exp);
      var prev := State(p, t, dt, y, k - 1, sqrt, exp);
      Rk4StepExpands(p, TimeAfter(t, dt, k - 1), dt, prev, sqrt, exp);
      assert Defined(p, t, dt, y, k, sqrt, exp);
      assert State(p, t, dt, y, k, sqrt, exp) == Rk4Step(p, TimeAfter(t, dt, k - 1), dt, prev, sqrt, exp);
    }
  }

  /** The table `run` builds from y at time t: the row of the state before each of the
      n steps and the row of the final state. */
  function Trajectory(p: Pars, t: real, dt: real, y: seq<real>, n: nat, sqrt: Sqrt, exp: real -> real)
    : (rows: seq<Row>)
    requires |y| == 4 && Defined(p, t, dt, y, n, sqrt, exp)
    ensures |rows| == n + 1
    ensures rows[n] == Record(p, TimeAfter(t, dt, n), State(p, t, dt, y, n, sqrt, exp), sqrt)
    decreases n
  {
    if n == 0 then [Record(p, t, y, sqrt)]
    else
      Trajectory(p, t, dt, y, n - 1, sqrt, exp)
        + [Record(p, TimeAfter(t, dt, n), State(p, t, dt, y, n, sqrt, exp), sqrt)]
  }

  /** Row k records, at the time after k steps, the state after k steps. */
  lemma {:induction false} TrajectoryRow(p: Pars, t: real, dt: real, y: seq<real>, n: nat, k: nat,
                                         sqrt: Sqrt, exp: real -> real)
    requires |y| == 4 && Defined(p, t, dt, y, n, sqrt, exp) && k <= n
    ensures Defined(p, t, dt, y, k, sqrt, exp)
    ensures Trajectory(p, t, dt, y, n, sqrt, exp)[k]
         == Record(p, TimeAfter(t, dt, k), State(p, t, dt, y, k, sqrt, exp), sqrt)
    decreases n
  {
    if k < n {
      TrajectoryRow(p, t, dt, y, n - 1, k, sqrt, exp);
    }
  }

  /** With every coupling rate and kappa zero, Gc, Gh and rho_L keep their initial
      values through any number of steps. */
  lemma {:induction false} FrozenState(p: Pars, t: real, dt: real, y: seq<real>, k: nat,
                                       sqrt: Sqrt, exp: real -> real)
    requires |y| == 4 && Defined(p, t, dt, y, k, sqrt, exp)
    requires p.alphaC == 0.0 && p.muC == 0.0 && p.betaH == 0.0 && p.gammaH == 0.0 && p.kappa == 0.0
    ensures State(p, t, dt, y, k, sqrt, exp)[1..] == y[1..]
  {
    if k > 0 {
      FrozenState(p, t, dt, y, k - 1, sqrt, exp);
      Rk4StepFrozenChannels(p, TimeAfter(t, dt, k - 1), dt, State(p, t, dt, y, k - 1, sqrt, exp), sqrt, exp);
    }
  }

  /** With every coupling rate and kappa zero, every row of the table records the
      initial Gc, Gh and rho_L. */
  lemma TrajectoryFrozenChannels(p: Pars, t: real, dt: real, y: seq<real>, n: nat, k: nat,
                                 sqrt: Sqrt, exp: real -> real)
    requires |y| == 4 && Defined(p, t, dt, y, n, sqrt, exp) && k <= n
    requires p.alphaC == 0.0 && p.muC == 0.0 && p.betaH == 0.0 && p.gammaH == 0.0 && p.kappa == 0.0
    ensures var row := Trajectory(p, t, dt, y, n, sqrt, exp)[k];
      row.gc == y[1] && row.gh == y[2] && row.rhoL == y[3]
  {
    TrajectoryRow(p, t, dt, y, n, k, sqrt, exp);
    FrozenState(p, t, dt, y, k, sqrt, exp);
    ghost var s := State(p, t, dt, y, k, sqrt, exp);
    assert s[1] == s[1..][0] && s[2] == s[1..][1] && s[3] == s[1..][2];
  }

  /** Row k is taken at t + k dt. */
  lemma TrajectoryTimes(p: Pars, t: real, dt: real, y: seq<real>, n: nat, k: nat,
                        sqrt: Sqrt, exp: real -> real)
    requires |y| == 4 && Defined(p, t, dt, y, n, sqrt, exp) && k <= n
    ensures Trajectory(p, t, dt, y, n, sqrt, exp)[k].t == t + k as real * dt
  {
    TrajectoryRow(p, t, dt, y, n, k, sqrt, exp);
    TimeAfterClosedForm(t, dt, k);
  }

  /** The state recorded in a row is the state it was recorded from. */
  lemma RowStateOfRecord(p: Pars, t: real, y: seq<real>, sqrt: Sqrt)
    requires |y| == 4 && y[0] != 0.0
    ensures RowState(Record(p, t, y, sqrt)) == y
  {
    assert RowState(Record(p, t, y, sqrt))[..] == [y[0], y[1], y[2], y[3]];
  }

  /** The first row records the initial state at the start time. */
  lemma TrajectoryStart(p: Pars, t: real, dt: real, y: seq<real>, n: nat, sqrt: Sqrt, exp: real -> real)
    requires |y| == 4 && Defined(p, t, dt, y, n, sqrt, exp)
    ensures Trajectory(p, t, dt, y, n, sqrt, exp)[0] == Record(p, t, y, sqrt)
  {
    TrajectoryRow(p, t, dt, y, n, 0, sqrt, exp);
  }

  /** Consecutive rows are one loop pass apart: dt later in time, and the later state
      is one RK4 step from the earlier one. */
  lemma TrajectoryFollowsSteps(p: Pars, t: real, dt: real, y: seq<real>, n: nat, k: nat,
                               sqrt: Sqrt, exp: real -> real)
    requires |y| == 4 && Defined(p, t, dt, y, n, sqrt, exp) && k < n
    ensures var rows := Trajectory(p, t, dt, y, n, sqrt, exp);
      rows[k + 1].t == rows[k].t + dt &&
      StepDefined(p, rows[k].t, dt, RowState(rows[k]), sqrt, exp) &&
      RowState(rows[k + 1]) == Rk4Step(p, rows[k].t, dt, RowState(rows[k]), sqrt, exp)
  {
    TrajectoryRow(p, t, dt, y, n, k, sqrt, exp);
    TrajectoryRow(p, t, dt, y, n, k + 1, sqrt, exp);
    NextPass(p, t, dt, y, k, sqrt, exp);
    ghost var cur := State(p, t, dt, y, k, sqrt, exp);
    ghost var next := State(p, t, dt, y, k + 1, sqrt, exp);
    RowStateOfRecord(p, TimeAfter(t, dt, k), cur, sqrt);
    RowStateOfRecord(p, TimeAfter(t, dt, k + 1), next, sqrt);
  }

  /** A row with a nonzero scale factor whose Hubble column is `_compute_H` of its
      own state. */
  predicate Consistent(p: Pars, row: Row, sqrt: Sqrt)
  {
    row.a != 0.0 && row.h == ComputeH(row.a, row.gc, row.gh, row.rhoL, p, sqrt)
  }

  /** Every row of the table carries the Hubble rate of its own state. */
  lemma TrajectoryConsistent(p: Pars, t: real, dt: real, y: seq<real>, n: nat, k: nat,
                             sqrt: Sqrt, exp: real -> real)
    requires |y| == 4 && Defined(p, t, dt, y, n, sqrt, exp) && k <= n
    ensures Consistent(p, Trajectory(p, t, dt, y, n, sqrt, exp)[k], sqrt)
  {
    TrajectoryRow(p, t, dt, y, n, k, sqrt, exp);
  }

  /** Forward in time from a positive scale factor the recorded scale factor never
      decreases from row to row. */
  lemma ScaleFactorGrows(p: Pars, t: real, dt: real, y: seq<real>, n: nat, k: nat,
                         sqrt: Sqrt, exp: real -> real)
    requires Admissible(p) && |y| == 4 && y[0] > 0.0 && dt >= 0.0 && k < n
    ensures Defined(p, t, dt, y, n, sqrt, exp)
    ensures var rows := Trajectory(p, t, dt, y, n, sqrt, exp);
      0.0 < rows[k].a <= rows[k + 1].a
  {
    ForwardDefined(p, t, dt, y, n, sqrt, exp);
    ForwardDefined(p, t, dt, y, k, sqrt, exp);
    TrajectoryRow(p, t, dt, y, n, k, sqrt, exp);
    var rows := Trajectory(p, t, dt, y, n, sqrt, exp);
    TrajectoryFollowsSteps(p, t, dt, y, n, k, sqrt, exp);
    Rk4StepExpands(p, rows[k].t, dt, RowState(rows[k]), sqrt, exp);
  }

  /** dt = (t_end - t_start) / n_steps: the step divides a Python number, so zero
      steps raise ZeroDivisionError. */
  function StepSize(tStart: real, tEnd: real, nSteps: int): (r: Result<real>)
    ensures r.Err? <==> nSteps == 0
    ensures r.Err? ==> r.error == ZeroDivisionError
    ensures r.Ok? ==> r.value * nSteps as real == tEnd - tStart
  {
    if nSteps == 0 then Err(ZeroDivisionError) else Ok((tEnd - tStart) / nSteps as real)
  }

  /** With a positive step count the last row is taken exactly at t_end. */
  lemma LastRowAtEnd(p: Pars, tStart: real, tEnd: real, nSteps: nat, dt: real, y: seq<real>,
                     sqrt: Sqrt, exp: real -> real)
    requires |y| == 4 && StepSize(tStart, tEnd, nSteps) == Ok(dt)
    requires Defined(p, tStart, dt, y, nSteps, sqrt, exp)
    ensures Trajectory(p, tStart, dt, y, nSteps, sqrt, exp)[nSteps].t == tEnd
  {
    StepsReachEnd(tStart, tEnd, nSteps, dt);
  }

  /** n passes of `t += dt` with the step size of n steps lead from t_start to t_end. */
  lemma StepsReachEnd(tStart: real, tEnd: real, n: int, dt: real)
    requires n > 0 && StepSize(tStart, tEnd, n) == Ok(dt)
    ensures TimeAfter(tStart, dt, n) == tEnd
  {
    TimeAfterClosedForm(tStart, dt, n);
    assert dt * n as real == tEnd - tStart;
  }

  /** One pass of the loop body of `run` on the state array: the four stages and
      `y += (dt / 6) * (k1 + 2 k2 + 2 k3 + k4)`. */
  method Step(p: Pars, t: real, dt: real, y: array<real>, sqrt: Sqrt, exp: real -> real)
    requires Admissible(p) && y.Length == 4 && StepDefined(p, t, dt, y[..], sqrt, exp)
    modifies y
    ensures y[..] == Rk4Step(p, t, dt, old(y[..]), sqrt, exp)
  {
    var cur := y[..];
    var k1 := Rhs(p, t, cur, sqrt, exp);
    var k2 := Rhs(p, t + 0.5 * dt, Axpy(cur, 0.5 * dt, k1), sqrt, exp);
    var k3 := Rhs(p, t + 0.5 * dt, Axpy(cur, 0.5 * dt, k2), sqrt, exp);
    var k4 := Rhs(p, t + dt, Axpy(cur, dt, k3), sqrt, exp);
    AddInPlace(y, Rk4Increment(dt, k1, k2, k3, k4));
  }

  /** `run` from the integration on: the state vector as an array updated in place,
      the time advanced by dt after each step, one row appended before each step and
      one after the last. Zero steps make the step size fail; a negative count runs the
      loop no times and records the initial row only. */
  method Run(p: Pars, init: seq<real>, tStart: real, tEnd: real, nSteps: int, sqrt: Sqrt, exp: real -> real)
    returns (res: Result<seq<Row>>)
    requires |init| == 4
    requires nSteps != 0 ==> Defined(p, tStart, (tEnd - tStart) / nSteps as real, init, RangeLength(nSteps), sqrt, exp)
    ensures nSteps == 0 <==> res == Err(ZeroDivisionError)
    ensures nSteps != 0 ==> res == Ok(Trajectory(p, tStart, (tEnd - tStart) / nSteps as real, init, RangeLength(nSteps), sqrt, exp))
  {
    var step := StepSize(tStart, tEnd, nSteps);
    if step.Err? {
      return Err(step.error);
    }
    var y := new real[4];
    y[0], y[1], y[2], y[3] := init[0], init[1], init[2], init[3];
    assert y[..] == init;
    var rows := Integrate(p, y, tStart, step.value, RangeLength(nSteps), sqrt, exp);
    return Ok(rows);
  }

  /** The loop of `run` and the final row: the state array stepped in place n times,
      a row recorded before each step and one after the last. */
  method Integrate(p: Pars, y: array<real>, tStart: real, dt: real, n: nat, sqrt: Sqrt, exp: real -> real)
    returns (data: seq<Row>)
    requires y.Length == 4 && Defined(p, tStart, dt, y[..], n, sqrt, exp)
    modifies y
    ensures data == Trajectory(p, tStart, dt, old(y[..]), n, sqrt, exp)
    ensures y[..] == State(p, tStart, dt, old(y[..]), n, sqrt, exp)
  {
    ghost var init := y[..];
    var t := tStart;
    data := [];
    var s := 0;
    while s < n
      invariant 0 <= s <= n && Defined(p, tStart, dt, init, s, sqrt, exp)
      invariant t == TimeAfter(tStart, dt, s) && y[..] == State(p, tStart, dt, init, s, sqrt, exp)
      invariant data + [Record(p, t, y[..], sqrt)] == Trajectory(p, tStart, dt, init, s, sqrt, exp)
    {
      DefinedPrefix(p, tStart, dt, init, n, s + 1, sqrt, exp);
      data, t := Pass(p, y, tStart, t, dt, init, s, data, sqrt, exp);
      s := s + 1;
    }
    var row := CurrentRow(p, t, y, sqrt);
    data := data + [row];
  }

  /** One pass of the loop, stated against the specification: from the state, time
      and table after s steps to those after s + 1. */
  method Pass(p: Pars, y: array<real>, tStart: real, t: real, dt: real, ghost init: seq<real>,
              ghost s: nat, data: seq<Row>, sqrt: Sqrt, exp: real -> real)
    returns (data': seq<Row>, t': real)
    requires |init| == 4 && y.Length == 4 && Defined(p, tStart, dt, init, s + 1, sqrt, exp)
    requires t == TimeAfter(tStart, dt, s) && y[..] == State(p, tStart, dt, init, s, sqrt, exp)
    requires data + [Record(p, t, y[..], sqrt)] == Trajectory(p, tStart, dt, init, s, sqrt, exp)
    modifies y
    ensures t' == TimeAfter(tStart, dt, s + 1) && y[..] == State(p, tStart, dt, init, s + 1, sqrt, exp)
    ensures data' + [Record(p, t', y[..], sqrt)] == Trajectory(p, tStart, dt, init, s + 1, sqrt, exp)
  {
    NextPass(p, tStart, dt, init, s, sqrt, exp);
    ghost var next := State(p, tStart, dt, init, s + 1, sqrt, exp);
    ghost var table := Trajectory(p, tStart, dt, init, s + 1, sqrt, exp);
    ghost var row := Record(p, TimeAfter(tStart, dt, s + 1), next, sqrt);
    assert table == data + [Record(p, t, y[..], sqrt)] + [row];
    data', t' := RecordAndAdvance(p, y, t, dt, data, sqrt, exp);
    assert y[..] == next && t' == TimeAfter(tStart, dt, s + 1);
  }

  /** What one more pass of the loop adds: the state and the time after s + 1 steps
      are one RK4 step and one dt on from those after s, and the table of s + 1 steps
      is that of s steps with the row of the new state appended. */
  lemma NextPass(p: Pars, t: real, dt: real, y: seq<real>, s: nat, sqrt: Sqrt, exp: real -> real)
    requires |y| == 4 && Defined(p, t, dt, y, s + 1, sqrt, exp)
    ensures Admissible(p) && Defined(p, t, dt, y, s, sqrt, exp)
    ensures StepDefined(p, TimeAfter(t, dt, s), dt, State(p, t, dt, y, s, sqrt, exp), sqrt, exp)
    ensures State(p, t, dt, y, s + 1, sqrt, exp)
         == Rk4Step(p, TimeAfter(t, dt, s), dt, State(p, t, dt, y, s, sqrt, exp), sqrt, exp)
    ensures TimeAfter(t, dt, s + 1) == TimeAfter(t, dt, s) + dt
    ensures Trajectory(p, t, dt, y, s + 1, sqrt, exp)
         == Trajectory(p, t, dt, y, s, sqrt, exp)
            + [Record(p, TimeAfter(t, dt, s + 1), State(p, t, dt, y, s + 1, sqrt, exp), sqrt)]
  {
  }

  /** `[t, y[0], y[1], y[2], y[3], _compute_H(*y, params)]`: the row of the current
      state. */
  method CurrentRow(p: Pars, t: real, y: array<real>, sqrt: Sqrt) returns (row: Row)
    requires y.Length == 4 && y[0] != 0.0
    ensures row == Record(p, t, y[..], sqrt)
  {
    var h := ComputeH(y[0], y[1], y[2], y[3], p, sqrt);
    row := Row(t, y[0], y[1], y[2], y[3], h);
  }

  /** One pass of the loop of `run`: record the row of the current state, step the
      array in place by RK4 and advance the time by dt. */
  method RecordAndAdvance(p: Pars, y: array<real>, t: real, dt: real, data: seq<Row>,
                          sqrt: Sqrt, exp: real -> real)
    returns (data': seq<Row>, t': real)
    requires Admissible(p) && y.Length == 4 && StepDefined(p, t, dt, y[..], sqrt, exp)
    modifies y
    ensures data' == data + [Record(p, t, old(y[..]), sqrt)]
    ensures y[..] == Rk4Step(p, t, dt, old(y[..]), sqrt, exp)
    ensures t' == t + dt
  {
    var row := CurrentRow(p, t, y, sqrt);
    Step(p, t, dt, y, sqrt, exp);
    data' := data + [row];
    t' := t + dt;
  }
}
