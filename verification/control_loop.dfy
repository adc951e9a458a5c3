/**
 The state threading the controller expects of its caller: each tick's
 returned error and integral become the next tick's previous error and
 previous integral. `Run` folds the control law over a finite sequence of
 ticks; the lemmas relate that fold to an index-wise description of the
 threading and state what holds of every tick of any run.
 */
module ControlLoop {
  import opened AntiWindup
  import opened LateralPid

  /** The per-tick inputs: the gains in force for this call (the control
      law reads them afresh on every call, so they may change between
      ticks), the speed, the target and estimated positions and the time
      step. */
  datatype Tick = Tick(g: Gains, v0: real, yRef: real, yHat: real, dt: real)

  /** One tick applied to a carried state. */
  function Apply(st: ControlState, t: Tick): Result<Output> {
    PidController(t.g, t.v0, t.yRef, t.yHat, st.prevError, st.prevIntegral, t.dt)
  }

  /** Runs the ticks in order from state `s`, threading the state. A tick
      with a zero time step raises, which ends the whole run. */
  function Run(s: ControlState, ticks: seq<Tick>): (r: Result<seq<Output>>)
    ensures r.Failure? <==> exists i | 0 <= i < |ticks| :: ticks[i].dt == 0.0
    ensures r.Success? ==> |r.value| == |ticks|
    // anti-windup over the whole run, whatever the initial state
    ensures r.Success? ==> forall i | 0 <= i < |ticks| :: InBand(r.value[i].eInt)
    // speed pass-through and tracking error on every tick
    ensures r.Success? ==> forall i | 0 <= i < |ticks| ::
              r.value[i].v == ticks[i].v0 && r.value[i].e == ticks[i].yRef - ticks[i].yHat
    decreases |ticks|
  {
    if |ticks| == 0 then
      Success([])
    else
      match Apply(s, ticks[0])
      case Failure(err) => Failure(err)
      case Success(o) =>
        match Run(o.Next(), ticks[1..])
        case Failure(err) => Failure(err)
        case Success(rest) => Success([o] + rest)
  }

  /** The state in force before tick `i` of a run that produced `outs`. */
  function StateBefore(s: ControlState, outs: seq<Output>, i: nat): ControlState
    requires i <= |outs|
  {
    if i == 0 then s else outs[i - 1].Next()
  }

  /** Index-wise description of a threaded run: every output is what the
      control law returns on its tick from the state the previous tick left. */
  ghost predicate Threaded(s: ControlState, ticks: seq<Tick>, outs: seq<Output>) {
    && |outs| == |ticks|
    && forall i | 0 <= i < |ticks| :: Apply(StateBefore(s, outs, i), ticks[i]) == Success(outs[i])
  }

  /** Peeling off the first tick of a threaded run leaves a threaded run from
      the state the first tick returned. */
  lemma ThreadedCons(s: ControlState, ticks: seq<Tick>, outs: seq<Output>)
    requires |ticks| > 0 && |outs| == |ticks|
    ensures Threaded(s, ticks, outs) <==>
              Apply(s, ticks[0]) == Success(outs[0])
              && Threaded(outs[0].Next(), ticks[1..], outs[1..])
  {
    var s' := outs[0].Next();
    forall i | 1 <= i < |ticks|
      ensures StateBefore(s, outs, i) == StateBefore(s', outs[1..], i - 1)
      ensures ticks[i] == ticks[1..][i - 1] && outs[i] == outs[1..][i - 1]
    {
    }
    if Apply(s, ticks[0]) == Success(outs[0]) && Threaded(s', ticks[1..], outs[1..]) {
      forall i | 0 <= i < |ticks|
        ensures Apply(StateBefore(s, outs, i), ticks[i]) == Success(outs[i])
      {
        if i > 0 {
          assert Apply(StateBefore(s', outs[1..], i - 1), ticks[1..][i - 1]) == Success(outs[1..][i - 1]);
        }
      }
    }
    if Threaded(s, ticks, outs) {
      forall j | 0 <= j < |ticks| - 1
        ensures Apply(StateBefore(s', outs[1..], j), ticks[1..][j]) == Success(outs[1..][j])
      {
        assert Apply(StateBefore(s, outs, j + 1), ticks[j + 1]) == Success(outs[j + 1]);
      }
    }
  }

  /** Every successful run is threaded: each output is the control law
      applied to its tick from the state the previous tick returned. */
  lemma {:induction false} RunIsThreaded(s: ControlState, ticks: seq<Tick>, outs: seq<Output>)
    requires Run(s, ticks) == Success(outs)
    ensures Threaded(s, ticks, outs)
    decreases |ticks|
  {
    if |ticks| > 0 {
      assert Apply(s, ticks[0]) == Success(outs[0]);
      assert Run(outs[0].Next(), ticks[1..]) == Success(outs[1..]);
      RunIsThreaded(outs[0].Next(), ticks[1..], outs[1..]);
      ThreadedCons(s, ticks, outs);
    }
  }

  /** Conversely, the threaded run is the one `Run` returns: the fold is
      the only output sequence that threads the state. */
  lemma {:induction false} ThreadedIsRun(s: ControlState, ticks: seq<Tick>, outs: seq<Output>)
    requires Threaded(s, ticks, outs)
    ensures Run(s, ticks) == Success(outs)
    decreases |ticks|
  {
    if |ticks| > 0 {
      ThreadedCons(s, ticks, outs);
      ThreadedIsRun(outs[0].Next(), ticks[1..], outs[1..]);
      assert [outs[0]] + outs[1..] == outs;
    }
  }

  /** Zero error on every tick from the zero state: whatever the gains of
      each tick, every command is zero, the speed passes through, and the
      state stays at zero. */
  lemma {:induction false} SteadyStateRun(ticks: seq<Tick>)
    requires forall i | 0 <= i < |ticks| :: ticks[i].yRef == ticks[i].yHat && ticks[i].dt != 0.0
    ensures Run(ControlState(0.0, 0.0), ticks).Success?
    ensures forall i | 0 <= i < |ticks| ::
              Run(ControlState(0.0, 0.0), ticks).value[i] == Output(ticks[i].v0, 0.0, 0.0, 0.0)
    decreases |ticks|
  {
    if |ticks| > 0 {
      var zero := ControlState(0.0, 0.0);
      var o := Output(ticks[0].v0, 0.0, 0.0, 0.0);
      assert Apply(zero, ticks[0]) == Success(o);
      assert o.Next() == zero;
      SteadyStateRun(ticks[1..]);
      var rest := Run(zero, ticks[1..]).value;
      assert Run(zero, ticks) == Success([o] + rest);
      forall i | 1 <= i < |ticks|
        ensures ([o] + rest)[i] == Output(ticks[i].v0, 0.0, 0.0, 0.0)
      {
        assert ticks[1..][i - 1] == ticks[i];
      }
    }
  }

  /** The area under the error curve over the ticks: the sum of error times
      time step. */
  function ErrorArea(ticks: seq<Tick>): real
    decreases |ticks|
  {
    if |ticks| == 0 then 0.0
    else
      var t := ticks[|ticks| - 1];
      ErrorArea(ticks[..|ticks| - 1]) + (t.yRef - t.yHat) * t.dt
  }

  /** No raw integral of the run ever leaves the band. */
  ghost predicate NeverSaturates(s: ControlState, ticks: seq<Tick>) {
    forall k | 1 <= k <= |ticks| :: InBand(s.prevIntegral + ErrorArea(ticks[..k]))
  }

  /** The raw integral one tick computes from a carried state. */
  function RawIntegral(st: ControlState, t: Tick): real {
    st.prevIntegral + (t.yRef - t.yHat) * t.dt
  }

  /** A tick whose raw integral is in the band returns it unclamped. */
  lemma TickIntegral(st: ControlState, t: Tick, o: Output)
    requires Apply(st, t) == Success(o)
    requires InBand(RawIntegral(st, t))
    ensures o.eInt == RawIntegral(st, t)
  {
    var r := PidController(t.g, t.v0, t.yRef, t.yHat, st.prevError, st.prevIntegral, t.dt);
    assert r == Success(o);
    assert InBand(st.prevIntegral + (t.yRef - t.yHat) * t.dt);
  }

  /** Appending a tick adds its error times time step to the area. */
  lemma ErrorAreaStep(ticks: seq<Tick>, k: nat)
    requires k < |ticks|
    ensures ErrorArea(ticks[..k + 1]) == ErrorArea(ticks[..k]) + (ticks[k].yRef - ticks[k].yHat) * ticks[k].dt
  {
    assert ticks[..k + 1][..k] == ticks[..k];
  }

  /** What a threaded run says of its integrals: wherever the raw integral
      is in the band, the returned integral is that raw integral. */
  ghost predicate UnclampedWhereInBand(s: ControlState, ticks: seq<Tick>, outs: seq<Output>) {
    && |outs| == |ticks|
    && forall i | 0 <= i < |ticks| ::
         InBand(RawIntegral(StateBefore(s, outs, i), ticks[i])) ==> outs[i].eInt == RawIntegral(StateBefore(s, outs, i), ticks[i])
  }

  lemma {:induction false} IntegralAt(s: ControlState, ticks: seq<Tick>, outs: seq<Output>, k: nat)
    requires UnclampedWhereInBand(s, ticks, outs)
    requires NeverSaturates(s, ticks)
    requires k < |ticks|
    ensures outs[k].eInt == s.prevIntegral + ErrorArea(ticks[..k + 1])
    decreases k
  {
    var st := StateBefore(s, outs, k);
    if k == 0 {
      assert ErrorArea(ticks[..0]) == 0.0;
    } else {
      IntegralAt(s, ticks, outs, k - 1);
    }
    assert st.prevIntegral == s.prevIntegral + ErrorArea(ticks[..k]);
    ErrorAreaStep(ticks, k);
    assert RawIntegral(st, ticks[k]) == s.prevIntegral + ErrorArea(ticks[..k + 1]);
  }

  /** Without saturation the integral term is exactly the initial integral
      plus the area under the error curve so far: the clamp only ever acts
      at the edges of the band. */
  lemma {:induction false} UnsaturatedIntegralIsErrorArea(s: ControlState, ticks: seq<Tick>, outs: seq<Output>)
    requires Run(s, ticks) == Success(outs)
    requires NeverSaturates(s, ticks)
    ensures forall k | 0 <= k < |ticks| :: outs[k].eInt == s.prevIntegral + ErrorArea(ticks[..k + 1])
  {
    RunIsThreaded(s, ticks, outs);
    forall i | 0 <= i < |ticks| && InBand(RawIntegral(StateBefore(s, outs, i), ticks[i]))
      ensures outs[i].eInt == RawIntegral(StateBefore(s, outs, i), ticks[i])
    {
      TickIntegral(StateBefore(s, outs, i), ticks[i], outs[i]);
    }
    forall k | 0 <= k < |ticks|
      ensures outs[k].eInt == s.prevIntegral + ErrorArea(ticks[..k + 1])
    {
      IntegralAt(s, ticks, outs, k);
    }
  }

  /** Constant error 1 with dt = 1 and ki = 1 from the zero state: the
      integral goes 1, 2, then stays saturated at 2, and so does omega. */
  lemma IntegralAccumulationScenario(v0: real)
    ensures
      var t := Tick(Gains(0.0, 1.0, 0.0), v0, 1.0, 0.0, 1.0);
      Run(ControlState(0.0, 0.0), [t, t, t])
      == Success([Output(v0, 1.0, 1.0, 1.0), Output(v0, 2.0, 1.0, 2.0), Output(v0, 2.0, 1.0, 2.0)])
  {
    var t := Tick(Gains(0.0, 1.0, 0.0), v0, 1.0, 0.0, 1.0);
    var o1 := Output(v0, 1.0, 1.0, 1.0);
    var o2 := Output(v0, 2.0, 1.0, 2.0);
    assert Apply(ControlState(0.0, 0.0), t) == Success(o1);
    assert Apply(o1.Next(), t) == Success(o2);
    assert Apply(o2.Next(), t) == Success(o2);
    RunCons(o2.Next(), t, [], []);
    assert [t] + [] == [t] && [o2] + [] == [o2];
    RunCons(o1.Next(), t, [t], [o2]);
    assert [t] + [t] == [t, t] && [o2] + [o2] == [o2, o2];
    RunCons(ControlState(0.0, 0.0), t, [t, t], [o2, o2]);
    assert [t] + [t, t] == [t, t, t] && [o1] + [o2, o2] == [o1, o2, o2];
  }

  /** One step of the fold: a successful tick followed by a successful run
      from the state it returned. */
  lemma RunCons(s: ControlState, t: Tick, ticks: seq<Tick>, outs: seq<Output>)
    requires Apply(s, t).Success?
    requires Run(Apply(s, t).value.Next(), ticks) == Success(outs)
    ensures Run(s, [t] + ticks) == Success([Apply(s, t).value] + outs)
  {
    assert ([t] + ticks)[0] == t;
    assert ([t] + ticks)[1..] == ticks;
  }
}
