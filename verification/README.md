# Lateral PID controller of a lane-following Duckiebot

This project models `PIDController`, the lateral control law of the
lane-following Duckiebot, and proves properties of it. Each tick takes the
linear speed `v_0`, the target lateral position `y_ref`, the estimated
position `y_hat`, the previous tracking error, the previous integral term and
the time step `delta_t`. It returns four values:

- the speed, unchanged;
- the angular-velocity command `omega = kp*e + ki*e_int + kd*(e - prev_e)/delta_t`;
- the new error `e = y_ref - y_hat`;
- the new integral `e_int`. This is the previous integral plus `e*delta_t`,
  clamped to the fixed anti-windup band [-2.0, 2.0].

The caller feeds the returned error and integral back in as the previous
error and previous integral of the next tick.

The project has three modules, one per concern:

- `AntiWindup` (`anti_windup.dfy`): the band constant `IntegralLimit = 2.0`,
  Python's two-argument `min`/`max`, and the clamp `max(min(x, 2.0), -2.0)`.
  The clamp comes with its partner characterisation: the clamped value is
  the unique nearest point of the band. It also has lemmas for idempotence,
  monotonicity, non-expansiveness, sticky saturation and immediate unwinding.
- `LateralPid` (`lateral_pid.dfy`): gains, carried state, the four-value
  output, and one control tick `PidController`. The Python
  `ZeroDivisionError` at `delta_t == 0` becomes a `Failure` result, so the
  function is total.
- `ControlLoop` (`control_loop.dfy`): the state threading that the docstring
  asks of the caller. `Run` folds the control law over a finite sequence of
  ticks; each tick carries the gains in force for that call, since the
  source reads them afresh on every call. `Run`'s own postcondition keeps
  every integral of any run in the band. `RunIsThreaded` and
  `ThreadedIsRun` prove, one direction each, that the fold matches an
  index-wise description of the threading. Further lemmas cover the
  zero-error steady state over any run, the integral being the exact area
  under the error curve while nothing saturates, and the 1, 2, 2
  saturation scenario.

All quantities are Dafny `real`s. This abstracts Python floats. The clamp
bound also holds for finite floats. The exact equalities about `omega` are
claims about real arithmetic.

The source does not guard `delta_t`. It raises `ZeroDivisionError` only at
exactly `delta_t == 0` (line 45) and computes negative time steps normally;
the model returns `Failure` exactly when `delta_t == 0`. The source never
checks the sign of the gains, so the model accepts any real gains.

## Model

| member | source | states |
|---|---|---|
| AntiWindup.Min | packages/solution/pid_controller_homework.py:44 | Python `min(a, b)` returns one of its arguments and is no larger than either |
| AntiWindup.Max | packages/solution/pid_controller_homework.py:44 | Python `max(a, b)` returns one of its arguments and is no smaller than either |
| AntiWindup.Clamp | packages/solution/pid_controller_homework.py:44 | the anti-windup clamp always lands in [-2.0, 2.0]; it is exactly 2.0 above the band and exactly -2.0 below it; it leaves in-band values unchanged |
| AntiWindup.ClampIdempotent | packages/solution/pid_controller_homework.py:44 | clamping twice is the same as clamping once |
| AntiWindup.ClampIsNearest | packages/solution/pid_controller_homework.py:44 | the clamped value is the point of the band nearest to the raw integral, and no other point of the band is as near |
| AntiWindup.SaturationHolds | packages/solution/pid_controller_homework.py:42-44 | an integral at an edge of the band stays there under a step of the same sign, so the accumulator never winds up past the bound |
| AntiWindup.UnwindsImmediately | packages/solution/pid_controller_homework.py:42-44 | from any previous integral, a step of the opposite sign moves the integral back on the very next tick (unless it already sits at the far edge), with no stored excess to unwind |
| AntiWindup.ClampMonotone | packages/solution/pid_controller_homework.py:44 | a larger raw integral never gives a smaller clamped integral |
| AntiWindup.ClampNonExpansive | packages/solution/pid_controller_homework.py:44 | the clamp never moves two raw integrals further apart |
| LateralPid.DerivativeIsSlope | packages/solution/pid_controller_homework.py:45 | the finite-difference derivative `Derivative` of line 45: times the time step it gives the change in error, and it is zero exactly when the error did not change |
| LateralPid.PidController | packages/solution/pid_controller_homework.py:7-48 | fails exactly when `delta_t == 0`; otherwise passes the speed through, returns error `y_ref - y_hat`, keeps the integral in [-2.0, 2.0] (the raw integral when that is in the band, exactly ±2.0 beyond it), and returns `omega = kp*e + ki*e_int + kd*(e - prev_e)/delta_t` |
| LateralPid.ZeroErrorSteadyState | packages/solution/pid_controller_homework.py:40-48 | with zero error, zero previous error and zero previous integral, any gains give `omega == 0` and the returned state is (0, 0) |
| LateralPid.DerivativeScenario | packages/solution/pid_controller_homework.py:40-47 | with kd = 1 and the other gains zero, error 5, previous error 2 and `delta_t` 0.5 give `omega == 6` |
| LateralPid.ProportionalScenario | packages/solution/pid_controller_homework.py:40-47 | with kp = 2 and the other gains zero, target 10 and estimate 4 give error 6 and `omega == 12` |
| ControlLoop.Run | packages/solution/pid_controller_homework.py:21-25 | running ticks with threaded state, each tick with its own gains, fails exactly when some tick has a zero time step; otherwise it returns one output per tick; every returned integral is in [-2.0, 2.0] whatever the initial state; every tick passes its speed through and returns `y_ref - y_hat` as its error |
| ControlLoop.RunIsThreaded | packages/solution/pid_controller_homework.py:24-25 | every successful run is threaded: each output is the control law applied to its tick, from the state the previous output returned (the initial state for the first tick) |
| ControlLoop.ThreadedIsRun | packages/solution/pid_controller_homework.py:24-25 | conversely, any output sequence threaded that way is exactly what the run returns, so the fold and the per-tick description agree in both directions |
| ControlLoop.SteadyStateRun | packages/solution/pid_controller_homework.py:40-48 | zero error on every tick, from the zero state, gives `omega == 0` on every tick; the state stays at (0, 0) and the speed passes through |
| ControlLoop.IntegralAt | packages/solution/pid_controller_homework.py:42-44 | where each tick's raw integral is its returned integral, the integral after tick k is the initial integral plus the error area up to tick k |
| ControlLoop.UnsaturatedIntegralIsErrorArea | packages/solution/pid_controller_homework.py:42-44 | while no raw integral leaves the band, the integral after each tick is exactly the initial integral plus the sum of error times time step so far |
| ControlLoop.IntegralAccumulationScenario | packages/solution/pid_controller_homework.py:42-47 | constant error 1, `delta_t = 1` and ki = 1 from the zero state give integrals 1, 2, 2 (saturated) and `omega` 1, 2, 2 |

## Left out

- Reading the gains from `GAINS.yaml` (lines 30-33) is left out because it is file I/O through `os.path`, `open` and `yaml.full_load`. The gains `kp`, `ki`, `kd` are parameters of `PidController` instead.
- The `KeyError` raised when a gain key is missing (lines 35-37) is left out. It belongs to the configuration plumbing, not to the control law.
- The `numpy` import (line 3) is left out because nothing uses it.
- IEEE-754 rounding, NaN and infinities are left out. All quantities are Dafny `real`, so `PidController`'s equality for `omega` and `UnsaturatedIntegralIsErrorArea` are exact real-arithmetic statements. In floating point they hold only up to rounding.
- The calling control loop is not part of the source. `ControlLoop.Run` models only the state threading that the docstring (lines 24-25) asks of it. A zero time step anywhere fails the whole run, just as the exception would end a Python loop. The model keeps no outputs from ticks before the failing one.
