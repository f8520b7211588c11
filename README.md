# Adaptive gravity integrators over the reals

This project models the numerical core of the adaptive-gravity package in exact
real arithmetic and proves properties of that model. The core has three parts:

- **`src/adaptive_gravity/simulate.py`** (modules `NeumannLaplacian` and `Simulate`).
  An effective coupling `G_eff(r)` on a radial grid relaxes towards
  `alpha * rho(r)**2 / mu`, optionally smoothed by `D` times the Neumann
  Laplacian. `run` calibrates `alpha` so that the baseline `G` is balanced at the
  anchor density. It then steps the field in place by classical RK4 for
  `int(t_units_T0 * T0 / dt)` steps of size `dt = T0 / 800`, and reads off the
  clamped rotation curve `sqrt(max(G_eff * M_enc / r, 0))`.
- **`adaptive_gravity_sim.py`** (module `AdaptiveGravitySim`). The stand-alone
  script does the same relaxation with fixed constants on
  `np.linspace(0.01, 40, 1000)`. It uses explicit Euler with `dt = T0 / 500` for
  `int(2 * T0 / dt)` steps, in place.
- **`src/adaptive_gravity/cosmology.py`** (module `Cosmology`). The state is
  `[a, Gc, Gh, rho_L]`. `_compute_H` is the square root of a Hubble radicand
  clamped at zero, and `rhs` is the four-component derivative. `run` integrates the
  state by RK4 in place for `n_steps` steps of `(t_end - t_start) / n_steps`. It
  records `[t, a, Gc, Gh, rho_L, H]` before every step and once after the last.

`realmath.dfy` (module `RealMath`) holds the numpy and Python primitives these
use:

- `max(x, 0)` and `np.clip`;
- Python's `int()` on a float (truncation towards zero);
- `range(n)`;
- `np.full`;
- elementwise vector arithmetic;
- `np.linspace`;
- an in-place `+=` on an array;
- the two exceptions the code can raise, `IndexError` and `ZeroDivisionError`.

Several things are parameters of the model:

- The square root is a parameter of type `Sqrt`. Nothing is known of it beyond
  being nonnegative with `sqrt(0) = 0`.
- `np.exp` is an uninterpreted `real -> real` parameter.
- The density profile, the enclosed mass, the interpolated anchor density
  `rho_R0`, and the configuration values are inputs.

Imperative code is kept imperative:

- The Laplacian is filled into a fresh array by a loop.
- Both relaxation loops update an array in place.
- The cosmology driver updates a four-entry array in place, advances `t` and
  appends rows.

Each method is proved equal to a specification function: `Laplacian`, `Evolved`,
`EulerIterate`, or `Trajectory` for the recorded table and `State` for the final
contents of the state array. The lemmas state their properties:

- linearity;
- zero curvature of a uniform field and zero net flux;
- fixed points;
- decoupling of grid points;
- the contraction factor of the Euler step;
- the count and timing of the recorded rows;
- the Hubble column of each row;
- a scale factor that never decreases when running forward from a positive scale
  factor.

## Model

| member | source | states |
|---|---|---|
| RealMath.Max0 | src/adaptive_gravity/cosmology.py:18 | `max(x, 0.0)` is nonnegative; it is 0 for x <= 0 and x for x >= 0 |
| RealMath.Trunc | src/adaptive_gravity/simulate.py:80 | Python `int()` on a float truncates towards zero: r <= x < r + 1 for x >= 0 and r - 1 < x <= r for x < 0 |
| RealMath.RangeLength | src/adaptive_gravity/simulate.py:88 | `range(n)` runs n times for n >= 0 and no times for n <= 0 |
| RealMath.Fill | src/adaptive_gravity/simulate.py:78 | `np.full_like(r, G)` has n entries, each equal to the fill value |
| RealMath.Axpy | src/adaptive_gravity/simulate.py:90-92 | the RK4 stage `Geff + c * k` has the length of the field, and entry i is G[i] + c k[i] |
| RealMath.Rk4Increment | src/adaptive_gravity/simulate.py:93 | `(dt / 6) * (k1 + 2 k2 + 2 k3 + k4)` has one entry per slope entry, each the weighted sum of the four slopes at that index |
| RealMath.AddInPlace | src/adaptive_gravity/simulate.py:93 | the in-place `+=` leaves the array equal to the elementwise sum of its old contents and the increment |
| RealMath.Linspace | src/adaptive_gravity/simulate.py:63 | `np.linspace(lo, hi, n)` has n points, starts at lo, ends at hi and has constant spacing (hi - lo) / (n - 1) |
| RealMath.LinspacePositive | adaptive_gravity_sim.py:28 | every point of a grid with two positive end points is positive |
| NeumannLaplacian.Laplacian | src/adaptive_gravity/simulate.py:50 | the Laplacian has as many entries as the field |
| NeumannLaplacian.TryLaplacian | src/adaptive_gravity/simulate.py:49-54 | a field of fewer than two points raises IndexError (if and only if), whatever the spacing; otherwise the result is the Laplacian, of the input's length. A nonzero dr is asked for only on fields of two or more points |
| NeumannLaplacian.LaplacianAt | src/adaptive_gravity/simulate.py:51-53 | entry i is the left edge formula at 0, the right edge formula at N-1 and the central second difference in between |
| NeumannLaplacian.LaplacianStencil | src/adaptive_gravity/simulate.py:51-53 | L[0] = 2(G[1]-G[0])/dr², L[N-1] = 2(G[N-2]-G[N-1])/dr², and L[i] = (G[i+1]-2G[i]+G[i-1])/dr² for 1 <= i <= N-2 |
| NeumannLaplacian.ComputeLaplacian | src/adaptive_gravity/simulate.py:49-54 | the fresh array filled by slice and index assignment equals the Laplacian of the input array |
| NeumannLaplacian.LaplacianOfConstant | src/adaptive_gravity/simulate.py:49-54 | a constant field has an all-zero Laplacian, the edges included |
| NeumannLaplacian.LaplacianLinear | src/adaptive_gravity/simulate.py:49-54 | lap(a f + b h) = a lap(f) + b lap(h), entry by entry |
| NeumannLaplacian.SecondDifferencesTelescope | src/adaptive_gravity/simulate.py:51 | the interior second differences sum to the difference between the slopes at the two ends |
| NeumannLaplacian.ZeroNetFlux | src/adaptive_gravity/simulate.py:49-54 | the trapezoidal integral of the Laplacian of any field is zero: the reflecting edges create or destroy nothing |
| Simulate.Calibrate | src/adaptive_gravity/simulate.py:76 | the calibrated alpha satisfies alpha * rho_R0² = mu * G |
| Simulate.PointRhs | src/adaptive_gravity/simulate.py:83 | the local term alpha rho² - mu G vanishes exactly when mu G = alpha rho² |
| Simulate.Rhs | src/adaptive_gravity/simulate.py:82-86 | the right-hand side has one entry per grid point |
| Simulate.RhsAt | src/adaptive_gravity/simulate.py:82-86 | entry i is alpha rho[i]² - mu G[i]; when D != 0 it also has D times entry i of the Laplacian |
| Simulate.Rk4Step | src/adaptive_gravity/simulate.py:89-93 | an RK4 step preserves the length of the field |
| Simulate.Evolved | src/adaptive_gravity/simulate.py:88-93 | n RK4 steps preserve the length of the field |
| Simulate.Rk4StepAtRest | src/adaptive_gravity/simulate.py:88-93 | if rhs(Geff) is the zero vector, one RK4 step leaves Geff unchanged |
| Simulate.EvolvedAtFixedPoint | src/adaptive_gravity/simulate.py:88-93 | a field fixed by one step is fixed by any number of steps |
| Simulate.Rk4StepDecoupled | src/adaptive_gravity/simulate.py:82-93 | with D = 0, entry i of an RK4 step is the scalar RK4 step of G[i] with rho[i] alone, independent of its neighbours |
| Simulate.PointRk4 | src/adaptive_gravity/simulate.py:89-93 | the scalar RK4 step of one grid value leaves a balanced value (mu G = alpha rho²) unchanged |
| Simulate.PointEvolved | src/adaptive_gravity/simulate.py:88-93 | n scalar RK4 steps of one grid value; a balanced value stays fixed for every n |
| Simulate.EvolvedDecoupled | src/adaptive_gravity/simulate.py:82-93 | with D = 0, entry i after n RK4 steps is the n-step scalar RK4 iteration of G[i] at rho[i] alone |
| Simulate.TargetBalances | src/adaptive_gravity/simulate.py:82-83 | the local rhs vanishes at alpha rho² / mu |
| Simulate.SteadyIsFixed | src/adaptive_gravity/simulate.py:82-93 | with D = 0, the steady field alpha rho² / mu is a fixed point of one RK4 step and of any number of them |
| Simulate.CalibratedAnchor | src/adaptive_gravity/simulate.py:76-86 | after calibration with D = 0, the baseline G zeroes rhs at every grid point whose density is rho_R0 |
| Simulate.CalibratedUniformAtRest | src/adaptive_gravity/simulate.py:76-93 | with the whole profile at the anchor density, the calibrated baseline field zeroes rhs even with diffusion, and stays unchanged for any number of steps |
| Simulate.UniformRhsVanishes | src/adaptive_gravity/simulate.py:76-86 | on a profile at the anchor density with the calibrated alpha, rhs of the baseline field G is zero at every point, diffusion included |
| Simulate.StepCount | src/adaptive_gravity/simulate.py:79-80 | computing the step count raises ZeroDivisionError if and only if T0 = 0 |
| Simulate.StepCountValue | src/adaptive_gravity/simulate.py:79-80 | T0 cancels: the run takes int(800 t_units_T0) steps, 1600 for t_units_T0 = 2 |
| Simulate.HernquistM | src/adaptive_gravity/simulate.py:33-34 | `_hernquist_M` encloses no mass at r = 0 |
| Simulate.HernquistMBounds | src/adaptive_gravity/simulate.py:33-34 | `_hernquist_M(0) = 0` and 0 <= `_hernquist_M(r)` < Mb for r >= 0, a > 0, Mb > 0 |
| Simulate.Radicand | src/adaptive_gravity/simulate.py:95 | the radicand max(G M / r, 0) is nonnegative; it is zero when G M / r <= 0 and G M / r otherwise |
| Simulate.Velocity | src/adaptive_gravity/simulate.py:95 | the velocity is nonnegative; it is exactly zero for a non-positive G M / r and sqrt(G M / r) otherwise |
| Simulate.VelocityUnclamped | src/adaptive_gravity/simulate.py:95 | for nonnegative coupling and mass at a positive radius the clamp never fires |
| Simulate.Velocities | src/adaptive_gravity/simulate.py:95 | the rotation curve has one entry per grid point, each the clamped velocity there |
| Simulate.Relax | src/adaptive_gravity/simulate.py:78-93 | the in-place RK4 loop from the baseline field returns the field after `steps` RK4 steps; with zero steps the closure is never evaluated, and nothing is asked of it |
| Simulate.Step | src/adaptive_gravity/simulate.py:89-93 | the four stages and the in-place `Geff +=` leave the array equal to one RK4 step of its old contents |
| Simulate.Advance | src/adaptive_gravity/simulate.py:88-93 | one pass of the loop takes the array from the field after s steps to the field after s + 1 steps |
| Simulate.Period | src/adaptive_gravity/simulate.py:74 | T0 = 2 pi R0 / V0 is zero exactly when R0 is |
| Simulate.TimeStep | src/adaptive_gravity/simulate.py:79 | dt = T0 / 800: 800 dt is the period, and dt is zero exactly when R0 is |
| Simulate.SpacingNonzero | src/adaptive_gravity/simulate.py:63-64 | the spacing r[1] - r[0] is nonzero on a grid with distinct end points |
| Simulate.RunResult | src/adaptive_gravity/simulate.py:63-95 | with fewer than 2 points, `run` raises IndexError; else with V0 = 0 or R0 = 0 it raises ZeroDivisionError, and otherwise it succeeds; on success there is one G_eff value and one nonnegative velocity per point. Nonzero rho_R0, radii and dr are asked for only on the path that divides by them |
| Simulate.Run | src/adaptive_gravity/simulate.py:63-95 | the imperative run, with the checks in the source's order and the in-place RK4 loop, computes exactly RunResult |
| AdaptiveGravitySim.Grid | adaptive_gravity_sim.py:28 | the grid has 1000 points, all positive |
| AdaptiveGravitySim.ScriptConstants | adaptive_gravity_sim.py:36-37 | T0 and mu are positive, dt * mu = 1/500, and the loop bound int(2 T0 / dt) is 1000 |
| AdaptiveGravitySim.MBulge | adaptive_gravity_sim.py:15 | M_bulge is `_hernquist_M` with the script's Mb and a_b, and is zero at r = 0 |
| AdaptiveGravitySim.MBulgeBounds | adaptive_gravity_sim.py:15 | M_bulge(0) = 0 and 0 <= M_bulge(r) < Mb for r >= 0 |
| AdaptiveGravitySim.Relax | adaptive_gravity_sim.py:38-39 | one explicit-Euler step x + h (s - m x) leaves x unchanged when x is the equilibrium (m x = s) or when h = 0 |
| AdaptiveGravitySim.RelaxTowards | adaptive_gravity_sim.py:38-39 | a relaxation step multiplies the gap to the equilibrium s / m by 1 - h m |
| AdaptiveGravitySim.RelaxConvex | adaptive_gravity_sim.py:38-39 | with 0 <= dt mu <= 1, the new value lies between the old value and the target, and is no farther from the target |
| AdaptiveGravitySim.EulerPoint | adaptive_gravity_sim.py:38-39 | one update `G += dt (alpha rho² - mu G)` at a point leaves a value with mu G = alpha rho² unchanged |
| AdaptiveGravitySim.TargetIsFixed | adaptive_gravity_sim.py:38-39 | an entry equal to alpha rho² / mu is a fixed point of the update |
| AdaptiveGravitySim.EulerPointContracts | adaptive_gravity_sim.py:38-39 | each update shrinks the gap to the target to 499/500 of itself, so the new value lies between the old value and the target |
| AdaptiveGravitySim.EulerStep | adaptive_gravity_sim.py:38-39 | the update preserves the length, and entry i depends only on G[i] and rho[i] |
| AdaptiveGravitySim.EulerIterate | adaptive_gravity_sim.py:37-39 | n updates preserve the length |
| AdaptiveGravitySim.PointIterate | adaptive_gravity_sim.py:37-39 | n script steps of one grid value; a value at the equilibrium alpha rho² / mu stays fixed for every n |
| AdaptiveGravitySim.IterateDecoupled | adaptive_gravity_sim.py:37-39 | after n updates, entry i is the scalar iteration of its own starting value at its own density |
| AdaptiveGravitySim.PointIterateGap | adaptive_gravity_sim.py:37-39 | after n updates the gap to the target is (499/500)^n times the initial gap |
| AdaptiveGravitySim.AnchorKeepsBaseline | adaptive_gravity_sim.py:32-39 | after the calibration `alpha = mu G / rho_R0²` (the package's `Simulate.Calibrate` with mu = 1 / T0), the target at the anchor density is G, so such a point keeps G for any number of steps |
| AdaptiveGravitySim.EulerUpdate | adaptive_gravity_sim.py:38-39 | `Geff += dt * dG` in place leaves the array equal to one Euler step of its old contents |
| AdaptiveGravitySim.Evolve | adaptive_gravity_sim.py:35-39 | the in-place loop from the baseline field returns n Euler steps of it |
| AdaptiveGravitySim.Script | adaptive_gravity_sim.py:28-41 | the script's field is 1000 Euler steps of the baseline, each entry the scalar iteration at its own density; the rotation curve is the clamped velocity at each grid point |
| Cosmology.HubbleSquared | src/adaptive_gravity/cosmology.py:14-17 | with no coupling, Gc + lambda_h Gh = 0, the radicand is 8 pi rho_L / 3 |
| Cosmology.HubbleSquaredNonnegative | src/adaptive_gravity/cosmology.py:14-18 | with a > 0 and nonnegative Om, Or, Gc + lambda_h Gh and rho_L the radicand is nonnegative, so the clamp does not fire |
| Cosmology.ComputeH | src/adaptive_gravity/cosmology.py:12-18 | H is nonnegative; it is zero when H² <= 0 and sqrt(H²) when H² >= 0 |
| Cosmology.Rhs | src/adaptive_gravity/cosmology.py:21-33 | rhs has exactly 4 components, in the order [a H, dGc, dGh, dRhoL] |
| Cosmology.DGc | src/adaptive_gravity/cosmology.py:25-27 | dGc vanishes when alpha_c = mu_c = 0, and vanishes exactly when mu_c Gc = alpha_c rho_m² |
| Cosmology.DGh | src/adaptive_gravity/cosmology.py:26-28 | dGh vanishes when beta_h = gamma_h = 0; with H = 0 only the decay -gamma_h Gh remains |
| Cosmology.DRhoL | src/adaptive_gravity/cosmology.py:29-32 | dRhoL vanishes when kappa = 0 and when H = 0 |
| Cosmology.Expansion | src/adaptive_gravity/cosmology.py:33 | da/dt = a H is nonnegative for nonnegative a and H |
| Cosmology.ExpansionNonnegative | src/adaptive_gravity/cosmology.py:24-33 | for a positive scale factor the first component of rhs is nonnegative |
| Cosmology.ChannelsOff | src/adaptive_gravity/cosmology.py:27-32 | dGc = 0 when alpha_c = mu_c = 0; dGh = 0 when beta_h = gamma_h = 0; dRhoL = 0 when kappa = 0 |
| Cosmology.RhsTimeIndependent | src/adaptive_gravity/cosmology.py:21-33 | rhs does not depend on its time argument |
| Cosmology.Rk4Step | src/adaptive_gravity/cosmology.py:51-55 | an RK4 step yields a 4-component state |
| Cosmology.Rk4StepAtRest | src/adaptive_gravity/cosmology.py:51-55 | if rhs(t, y) is the zero vector, the step is defined and leaves y unchanged |
| Cosmology.Rk4StepExpands | src/adaptive_gravity/cosmology.py:51-55 | from a positive scale factor with dt >= 0, every stage is defined and the step never lowers the scale factor |
| Cosmology.Rk4StepFrozenChannels | src/adaptive_gravity/cosmology.py:51-55 | with every coupling rate and kappa zero, a step changes only the scale factor |
| Cosmology.FrozenState | src/adaptive_gravity/cosmology.py:48-56 | with every coupling rate and kappa zero, Gc, Gh and rho_L keep their initial values through any number of steps |
| Cosmology.TrajectoryFrozenChannels | src/adaptive_gravity/cosmology.py:47-58 | with every coupling rate and kappa zero, every row of the table records the initial Gc, Gh and rho_L |
| Cosmology.Record | src/adaptive_gravity/cosmology.py:49-50 | the recorded H column is nonnegative |
| Cosmology.TimeAfter | src/adaptive_gravity/cosmology.py:48-56 | k passes of `t += dt`: with dt = 0 the time stays at t, and with dt >= 0 it never falls below t |
| Cosmology.TimeAfterClosedForm | src/adaptive_gravity/cosmology.py:56 | k passes of `t += dt` give t + k dt |
| Cosmology.State | src/adaptive_gravity/cosmology.py:48-56 | the state after k steps has 4 components and a nonzero scale factor |
| Cosmology.DefinedPrefix | src/adaptive_gravity/cosmology.py:48-55 | steps that can be taken n times can be taken k <= n times |
| Cosmology.ForwardDefined | src/adaptive_gravity/cosmology.py:48-55 | from a positive scale factor with dt >= 0, any number of steps can be taken and the scale factor never drops below its initial value |
| Cosmology.Trajectory | src/adaptive_gravity/cosmology.py:47-58 | the table has exactly n_steps + 1 rows; the last is the row of the final state at the final time |
| Cosmology.TrajectoryRow | src/adaptive_gravity/cosmology.py:47-58 | row k records the state after k steps at the time after k passes of `t += dt` |
| Cosmology.TrajectoryTimes | src/adaptive_gravity/cosmology.py:44-56 | row k has t = t_start + k dt |
| Cosmology.TrajectoryStart | src/adaptive_gravity/cosmology.py:44-50 | the first row records the initial state at t_start |
| Cosmology.TrajectoryFollowsSteps | src/adaptive_gravity/cosmology.py:48-56 | consecutive rows are dt apart in time, and the later state is one RK4 step from the earlier one |
| Cosmology.TrajectoryConsistent | src/adaptive_gravity/cosmology.py:49-58 | each row's H column equals `_compute_H` of that row's state |
| Cosmology.ScaleFactorGrows | src/adaptive_gravity/cosmology.py:48-56 | from a positive scale factor with dt >= 0, the recorded scale factor never decreases from row to row |
| Cosmology.StepSize | src/adaptive_gravity/cosmology.py:45 | the step size raises ZeroDivisionError if and only if n_steps = 0; otherwise dt * n_steps = t_end - t_start |
| Cosmology.StepsReachEnd | src/adaptive_gravity/cosmology.py:45-56 | n_steps passes of `t += dt` lead from t_start exactly to t_end |
| Cosmology.LastRowAtEnd | src/adaptive_gravity/cosmology.py:45-58 | with n_steps > 0 the final row has t = t_end |
| Cosmology.Step | src/adaptive_gravity/cosmology.py:51-55 | the four stages and the in-place `y +=` leave the array equal to one RK4 step of its old contents |
| Cosmology.CurrentRow | src/adaptive_gravity/cosmology.py:49-50 | the appended row is `[t, y0, y1, y2, y3, _compute_H(y)]` of the current array |
| Cosmology.RecordAndAdvance | src/adaptive_gravity/cosmology.py:48-56 | one loop pass appends the row of the old state, steps the array by RK4 and advances t by dt |
| Cosmology.Pass | src/adaptive_gravity/cosmology.py:48-56 | one loop pass takes the state, time and table after s steps to those after s + 1 steps |
| Cosmology.NextPass | src/adaptive_gravity/cosmology.py:48-56 | the table of s + 1 steps is the table of s steps plus the row of the state one RK4 step and one dt further on |
| Cosmology.Integrate | src/adaptive_gravity/cosmology.py:47-58 | the loop and the final append build exactly the table of n steps from the initial array, and leave the array holding the state after n steps |
| Cosmology.Run | src/adaptive_gravity/cosmology.py:43-58 | `run` raises ZeroDivisionError if and only if n_steps = 0; otherwise it returns the table of max(n_steps, 0) steps with dt = (t_end - t_start) / n_steps. The nonzero a_c and Lp2 that `rhs` divides by are asked for only when a step is taken |

## Left out

Inputs and I/O:

- JSON loading, the default configurations, directory creation, CSV writing,
  plotting and the command-line entry point. These are I/O, and the
  configuration values are inputs instead.
- The density and mass profiles built from `np.exp`, and `np.interp` for
  `rho_R0`. The model takes `rho`, `M_enc` and `rho_R0` as given.
- The acceleration columns: `v**2 / r` times the unit factor 3.24078e-14. This
  is a trivial output scaling.
- A missing configuration key, which raises KeyError in Python. Keys are assumed
  present.
- The `float(tcfg.get("t_start", 0.0))` default in `cosmology.py`. Line 45 reads
  `tcfg["t_start"]` anyway, so the model takes a single `tStart`.
- The configured `alpha` of the `arp` block. It is read but `run` recalibrates
  it, so it is carried in `ArpParams` and never used.
- The other scripts of the repository (`arp_inflation_sim.py`,
  `arp_reheating_sim.py`, `quantum_foam_arp.py`). They are closed-form curves,
  random sampling and plots, outside this core.

Numerics:

- Floating-point rounding, overflow, NaN and infinity. All arithmetic is over
  `real`.
- Divisions that numpy turns into inf or nan have no real counterpart. Each one
  is a precondition only on the path that reaches it:
  - in `run` of `simulate.py`, by `rho_R0` and by every radius once the grid,
    T0 and the step count have succeeded, and by `dr` when diffusion is on and
    at least one step is taken (the predicate `RunDivisions`);
  - by `r + a` in the Hernquist mass, and by `dr` in the Laplacian;
  - in `cosmology.py`, by the scale factor at every recorded state and at every
    RK4 stage, and by `a_c` and `Lp2` when at least one step is taken (the
    predicate `Defined`).
- Divisions of Python floats by zero raise ZeroDivisionError and are modelled as
  `Err`: `V0 = 0`, `dt = 0` (that is, `R0 = 0`) and `n_steps = 0`.
- `x / dr**2` and `x / a**k` are written as repeated divisions. Over `real` they
  are equal.
- RK4 convergence order and accuracy are not modelled. The code has no
  divergence check, and the model adds none.
- `np.sqrt` and `np.exp` are parameters. The square root is known only to be
  nonnegative with `sqrt(0) = 0`, and exp is uninterpreted.

Weaker or narrower contracts:

- AdaptiveGravitySim.ScriptConstants: the loop bound 1000 holds over the reals.
  For doubles, `int(2 * T0 / dt)` could come out as 999 if the quotient rounds
  below 1000; rounding is outside the model.
- Simulate.Run: `grid["nr"]` is a `nat`. A negative count, which makes
  `np.linspace` raise ValueError, is not modelled. Once the grid, T0 and the
  step count have succeeded, rho_R0 and every radius must be nonzero. With
  diffusion on and at least one step, the grid ends must differ so that
  `dr != 0`. Otherwise numpy would produce inf or nan.
- Simulate.RunResult: the same preconditions as Simulate.Run. It computes the
  calibration after the step-count check rather than before it. Over the reals
  the calibration raises nothing, so the result is the same. The result does
  not include the density and mass columns, which are inputs here.
- Cosmology.Run: if n_steps is nonzero, it requires that the scale factor
  stays nonzero at every state and RK4 stage, and that a_c and Lp2 are nonzero
  when a step is taken (the predicate `Defined`). Otherwise numpy would produce
  inf or nan. With n_steps = 0 it asks nothing beyond a four-entry state.
  `Cosmology.ForwardDefined` shows that `Defined` always holds for nonzero a_c
  and Lp2, a positive initial scale factor and `t_end >= t_start`.
- Cosmology.Integrate: the same `Defined` precondition as Cosmology.Run.
