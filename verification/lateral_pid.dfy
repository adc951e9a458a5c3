/**
 One tick of the lateral PID control law of a lane-following Duckiebot.

 All quantities are Dafny `real`s, an abstraction of Python floats: the clamp
 bound holds for finite floats as well, while the exact equalities about
 `omega` are statements about real arithmetic. The gains are parameters
 rather than values read from a configuration file.
 */
module LateralPid {
  import opened AntiWindup

  /** Proportional, integral and derivative gains. */
  datatype Gains = Gains(kp: real, ki: real, kd: real)

  /** The state the caller carries from one tick to the next:
      the previous tracking error and the previous integral term. */
  datatype ControlState = ControlState(prevError: real, prevIntegral: real)

  /** The four values one tick returns: linear velocity `v`, angular velocity
      `omega`, current tracking error `e` and current integral term `eInt`. */
  datatype Output = Output(v: real, omega: real, e: real, eInt: real) {

    /** The state to feed into the next tick: `e` becomes the previous error,
        `eInt` the previous integral. */
    function Next(): ControlState {
      ControlState(e, eInt)
    }
  }

  /** The one way the control law itself can fail: a zero time step makes
      the derivative a division by zero. */
  datatype PidError = ZeroDivisionError

  datatype Result<T> = Success(value: T) | Failure(error: PidError)

  /** Finite-difference derivative of the error over the time step. */
  function Derivative(e: real, prevE: real, dt: real): real
    requires dt != 0.0
  {
    (e - prevE) / dt
  }

  /** The derivative is the slope that carries the previous error to the
      current one over the time step; it vanishes exactly when the error
      did not change. */
  lemma DerivativeIsSlope(e: real, prevE: real, dt: real)
    requires dt != 0.0
    ensures Derivative(e, prevE, dt) * dt == e - prevE
    ensures e == prevE <==> Derivative(e, prevE, dt) == 0.0
  {
  }

  /** One control tick. The integral is computed and clamped before the
      derivative divides by `dt`, so a zero `dt` fails with no output. */
  function PidController(g: Gains, v0: real, yRef: real, yHat: real,
                         prevE: real, prevInt: real, dt: real): (r: Result<Output>)
    ensures r.Failure? <==> dt == 0.0
    // the linear speed is passed through
    ensures r.Success? ==> r.value.v == v0
    // the tracking error is target minus estimate
    ensures r.Success? ==> r.value.e == yRef - yHat
    // anti-windup: the integral term stays in the band, saturating at its edges
    ensures r.Success? ==> InBand(r.value.eInt)
    ensures r.Success? && InBand(prevInt + (yRef - yHat) * dt) ==>
              r.value.eInt == prevInt + (yRef - yHat) * dt
    ensures r.Success? && prevInt + (yRef - yHat) * dt > IntegralLimit ==>
              r.value.eInt == IntegralLimit
    ensures r.Success? && prevInt + (yRef - yHat) * dt < -IntegralLimit ==>
              r.value.eInt == -IntegralLimit
    // the command is the weighted sum of the three terms
    ensures r.Success? ==>
              r.value.omega == g.kp * r.value.e + g.ki * r.value.eInt
                               + g.kd * ((r.value.e - prevE) / dt)
  {
    var e := yRef - yHat;
    var eInt := Clamp(prevInt + e * dt);
    if dt == 0.0 then
      Failure(ZeroDivisionError)
    else
      var eDer := Derivative(e, prevE, dt);
      Success(Output(v0, g.kp * e + g.ki * eInt + g.kd * eDer, e, eInt))
  }

  /** Zero error from the zero state is a steady state for any gains: no
      command, and the state stays at zero. */
  lemma ZeroErrorSteadyState(g: Gains, v0: real, y: real, dt: real)
    requires dt != 0.0
    ensures PidController(g, v0, y, y, 0.0, 0.0, dt) == Success(Output(v0, 0.0, 0.0, 0.0))
  {
    var r := PidController(g, v0, y, y, 0.0, 0.0, dt);
    assert r.Success?;
    var o := r.value;
    assert o.e == 0.0;
    assert (y - y) * dt == 0.0;
    assert o.eInt == 0.0;
    assert (o.e - 0.0) / dt == 0.0;
    assert o.omega == g.kp * 0.0 + g.ki * 0.0 + g.kd * 0.0;
    assert o == Output(v0, 0.0, 0.0, 0.0);
  }

  /** Pure derivative action: kd = 1, error 5, previous error 2, dt = 0.5
      gives omega = (5 - 2) / 0.5 = 6. */
  lemma DerivativeScenario()
    ensures PidController(Gains(0.0, 0.0, 1.0), 0.3, 5.0, 0.0, 2.0, 0.0, 0.5)
            == Success(Output(0.3, 6.0, 5.0, 2.0))
  {
  }

  /** Pure proportional action: kp = 2, target 10, estimate 4 gives error 6
      and omega = 12. */
  lemma ProportionalScenario(prevE: real, prevInt: real, dt: real)
    requires dt != 0.0
    ensures PidController(Gains(2.0, 0.0, 0.0), 0.3, 10.0, 4.0, prevE, prevInt, dt).value.e == 6.0
    ensures PidController(Gains(2.0, 0.0, 0.0), 0.3, 10.0, 4.0, prevE, prevInt, dt).value.omega == 12.0
  {
  }
}
