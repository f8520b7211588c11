/** The stand-alone script adaptive_gravity_sim.py: a bulge-plus-disk galaxy on a
    fixed grid, the same calibrated relaxation of G_eff as the package, stepped in
    place by explicit Euler for two orbital periods, and the rotation curve. */
module AdaptiveGravitySim {
  import opened RealMath
  import Simulate

  /** Newton's constant in kpc (km/s)^2 / Msun. */
  const G: real := 4.30091e-6
  /** The anchor radius in kpc and the circular speed there in km/s. */
  const R0: real := 8.0
  const V0: real := 220.0
  /** The orbital period at the anchor and the relaxation rate, one per period. */
  const T0: real := 2.0 * PI * R0 / V0
  const MU: real := 1.0 / T0
  /** Hernquist bulge: total mass in Msun and scale length in kpc. */
  const MB: real := 0.9e10
  const A_B: real := 0.7
  /** The Euler step: a five-hundredth of a period. */
  const DT: real := T0 / 500.0
  /** The number of grid points. */
  const NR: nat := 1000

  /** The radial grid np.linspace(0.01, 40, 1000), in kpc: every radius is positive. */
  function Grid(): (r: seq<real>)
    ensures |r| == NR
    ensures forall i :: 0 <= i < NR ==> r[i] > 0.0
  {
    LinspacePositive(0.01, 40.0, NR);
    Linspace(0.01, 40.0, NR)
  }

  /** The rate and the step are those of the script: each step relaxes one
      five-hundredth of the way, and the loop bound int(2 * T0 / dt) is 1000. */
  lemma ScriptConstants()
    ensures T0 > 0.0 && MU > 0.0
    ensures DT * MU == 1.0 / 500.0
    ensures Trunc(2.0 * T0 / DT) == 1000
  {
  }

  /** M_bulge: the Hernquist mass of the script's bulge inside radius r. */
  function MBulge(r: real): (m: real)
    requires r + A_B != 0.0
    ensures r == 0.0 ==> m == 0.0
  {
    Simulate.HernquistM(r, MB, A_B)
  }

  /** The bulge encloses nothing at the centre and less than its total mass anywhere. */
  lemma MBulgeBounds(r: real)
    requires r >= 0.0
    ensures MBulge(0.0) == 0.0
    ensures 0.0 <= MBulge(r) < MB
  {
    EnclosedFraction(r, r + A_B, MB);
  }

  /** One explicit-Euler relaxation step x + h * (s - m * x) of a single value, with
      source s, rate m and step h. */
  function Relax(h: real, m: real, s: real, x: real): (y: real)
    ensures m * x == s || h == 0.0 ==> y == x
  {
    x + h * (s - m * x)
  }

  /** The step moves x a fraction h * m of the way to the equilibrium s / m. */
  lemma RelaxTowards(h: real, m: real, s: real, x: real)
    requires m != 0.0
    ensures Relax(h, m, s, x) - s / m == (1.0 - h * m) * (x - s / m)
  {
    var t := s / m;
    assert s == m * t;
    assert h * (s - m * x) == (h * m) * (t - x);
  }

  /** With 0 <= h * m <= 1 the new value lies between the old value and the
      equilibrium, and is no farther from the equilibrium than the old value. */
  lemma RelaxConvex(h: real, m: real, s: real, x: real)
    requires m != 0.0 && 0.0 <= h * m <= 1.0
    ensures x <= s / m ==> x <= Relax(h, m, s, x) <= s / m
    ensures s / m <= x ==> s / m <= Relax(h, m, s, x) <= x
    ensures Distance(Relax(h, m, s, x), s / m) <= Distance(x, s / m)
  {
    RelaxTowards(h, m, s, x);
    FractionOfGap(1.0 - h * m, x - s / m);
  }

  /** |x - y|. */
  function Distance(x: real, y: real): real
  {
    if x >= y then x - y else y - x
  }

  /** 0 <= c <= 1 scales a gap d to one of the same sign and no larger size. */
  lemma FractionOfGap(c: real, d: real)
    requires 0.0 <= c <= 1.0
    ensures d >= 0.0 ==> 0.0 <= c * d <= d
    ensures d <= 0.0 ==> d <= c * d <= 0.0
  {
  }

  /** The equilibrium alpha * rho**2 / mu. */
  function Target(alpha: real, rho: real): real
  {
    alpha * (rho * rho) / MU
  }

  /** One script step at one grid point: dG = alpha * rho**2 - mu * G, G += dt * dG.
      A value at which decay balances the source is left where it is. */
  function EulerPoint(alpha: real, rho: real, x: real): (y: real)
    ensures MU * x == alpha * (rho * rho) ==> y == x
  {
    Relax(DT, MU, alpha * (rho * rho), x)
  }

  /** The equilibrium is a fixed point of the script step. */
  lemma TargetIsFixed(alpha: real, rho: real)
    ensures EulerPoint(alpha, rho, Target(alpha, rho)) == Target(alpha, rho)
  {
    ScriptConstants();
    RelaxTowards(DT, MU, alpha * (rho * rho), Target(alpha, rho));
  }

  /** Each script step closes 1/500 of the gap to the equilibrium, so the new value
      lies between the old one and the equilibrium and never moves away from it. */
  lemma EulerPointContracts(alpha: real, rho: real, x: real)
    ensures EulerPoint(alpha, rho, x) - Target(alpha, rho) == (499.0 / 500.0) * (x - Target(alpha, rho))
    ensures var t, y := Target(alpha, rho), EulerPoint(alpha, rho, x);
      (x <= t ==> x <= y <= t) && (t <= x ==> t <= y <= x)
  {
    ScriptConstants();
    RelaxTowards(DT, MU, alpha * (rho * rho), x);
    RelaxConvex(DT, MU, alpha * (rho * rho), x);
  }

  /** The loop body on the whole field: dG = alpha * rho**2 - mu * Geff; Geff += dt * dG.
      Entry i depends only on entry i and rho[i]. */
  function EulerStep(alpha: real, rho: seq<real>, g: seq<real>): (r: seq<real>)
    requires |rho| == |g|
    ensures |r| == |g|
    ensures forall i :: 0 <= i < |g| ==> r[i] == EulerPoint(alpha, rho[i], g[i])
  {
    var dG := seq(|g|, i requires 0 <= i < |g| => alpha * (rho[i] * rho[i]) - MU * g[i]);
    Add(g, Scale(DT, dG))
  }

  /** n script steps from g. */
  function EulerIterate(alpha: real, rho: seq<real>, g: seq<real>, n: nat): (r: seq<real>)
    requires |rho| == |g|
    ensures |r| == |g|
  {
    if n == 0 then g else EulerStep(alpha, rho, EulerIterate(alpha, rho, g, n - 1))
  }

  /** n script steps of a single value. */
  function PointIterate(alpha: real, rho: real, x: real, n: nat): (y: real)
    ensures MU * x == alpha * (rho * rho) ==> y == x
  {
    if n == 0 then x else EulerPoint(alpha, rho, PointIterate(alpha, rho, x, n - 1))
  }

  function Pow(c: real, n: nat): real
  {
    if n == 0 then 1.0 else c * Pow(c, n - 1)
  }

  /** The grid points never interact: after n steps each entry is the scalar
      iteration of its own starting value. */
  lemma {:induction false} IterateDecoupled(alpha: real, rho: seq<real>, g: seq<real>, n: nat, i: int)
    requires |rho| == |g| && 0 <= i < |g|
    ensures EulerIterate(alpha, rho, g, n)[i] == PointIterate(alpha, rho[i], g[i], n)
  {
    if n > 0 {
      IterateDecoupled(alpha, rho, g, n - 1, i);
    }
  }

  /** Closed form: after n steps the gap to the equilibrium is (499/500)**n times the
      initial gap. */
  lemma {:induction false} PointIterateGap(alpha: real, rho: real, x: real, n: nat)
    ensures PointIterate(alpha, rho, x, n) - Target(alpha, rho)
         == Pow(499.0 / 500.0, n) * (x - Target(alpha, rho))
  {
    if n > 0 {
      var t := Target(alpha, rho);
      var prev := PointIterate(alpha, rho, x, n - 1);
      PointIterateGap(alpha, rho, x, n - 1);
      EulerPointContracts(alpha, rho, prev);
      Reassociate(499.0 / 500.0, Pow(499.0 / 500.0, n - 1), x - t);
    }
  }

  lemma Reassociate(c: real, p: real, d: real)
    ensures c * (p * d) == (c * p) * d
  {
  }

  /** At a grid point whose density is the anchor density the calibrated equilibrium
      is the baseline G, so such a point keeps G for ever. */
  lemma AnchorKeepsBaseline(rhoR0: real, n: nat)
    requires rhoR0 != 0.0
    ensures Target(Simulate.Calibrate(MU, rhoR0), rhoR0) == G
    ensures PointIterate(Simulate.Calibrate(MU, rhoR0), rhoR0, G, n) == G
  {
    ScriptConstants();
    var alpha := Simulate.Calibrate(MU, rhoR0);
    assert alpha * (rhoR0 * rhoR0) == MU * G;
    PointIterateGap(alpha, rhoR0, G, n);
  }

  /** `Geff += dt * dG` on the array. */
  method EulerUpdate(geff: array<real>, alpha: real, rho: seq<real>)
    requires geff.Length == |rho|
    modifies geff
    ensures geff[..] == EulerStep(alpha, rho, old(geff[..]))
  {
    var g := geff[..];
    var dG := seq(|g|, i requires 0 <= i < |g| => alpha * (rho[i] * rho[i]) - MU * g[i]);
    AddInPlace(geff, Scale(DT, dG));
  }

  /** The loop of the script: the baseline field G stepped in place n times. */
  method Evolve(alpha: real, rho: seq<real>, n: nat) returns (geff: seq<real>)
    requires |rho| == NR
    ensures geff == EulerIterate(alpha, rho, Fill(NR, G), n)
  {
    var arr := new real[NR](_ => G);
    assert arr[..] == Fill(NR, G);
    var s := 0;
    while s < n
      invariant 0 <= s <= n
      invariant arr[..] == EulerIterate(alpha, rho, Fill(NR, G), s)
    {
      EulerUpdate(arr, alpha, rho);
      s := s + 1;
    }
    geff := arr[..];
  }

  /** The script from the grid on: with density and enclosed mass given on
      np.linspace(0.01, 40, 1000) and rho_R0 interpolated, it calibrates alpha,
      starts from the baseline G, takes int(2 * T0 / dt) Euler steps in place and
      returns the relaxed field and the clamped rotation curve. Every entry is then
      the scalar iteration of G at its own density (see PointIterateGap for its
      closed form). */
  method Script(rho: seq<real>, mEnc: seq<real>, rhoR0: real, sqrt: Sqrt)
    returns (geff: seq<real>, v: seq<real>)
    requires |rho| == NR && |mEnc| == NR && rhoR0 != 0.0
    ensures geff == EulerIterate(Simulate.Calibrate(MU, rhoR0), rho, Fill(NR, G), 1000)
    ensures forall i :: 0 <= i < NR ==> geff[i] == PointIterate(Simulate.Calibrate(MU, rhoR0), rho[i], G, 1000)
    ensures |v| == NR
    ensures forall i :: 0 <= i < NR ==> v[i] == Simulate.Velocity(sqrt, geff[i], mEnc[i], Grid()[i])
  {
    var r := Grid();
    var alpha := Simulate.Calibrate(MU, rhoR0);
    ScriptConstants();
    geff := Evolve(alpha, rho, RangeLength(Trunc(2.0 * T0 / DT)));
    forall i | 0 <= i < NR ensures geff[i] == PointIterate(alpha, rho[i], G, 1000) {
      IterateDecoupled(alpha, rho, Fill(NR, G), 1000, i);
    }
    v := Simulate.Velocities(sqrt, geff, mEnc, r);
  }
}
