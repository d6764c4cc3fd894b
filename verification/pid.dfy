/**
 * The scalar PID controller `FRPid` (Control/RPid.h).
 *
 * Single-precision floats are modelled as reals. The only float-specific
 * behaviour of `Update`, its early return on a NaN error, is driven by an
 * input flag that says whether the error sample is NaN.
 */
module PidControl {
  import opened Wrappers

  /**
   * The output clamp of `FRPid::Update`: the upper limit is tested first, then
   * the lower one.
   */
  function Clamp(out: real, outMax: real, outMin: real): (r: real)
    ensures outMin <= outMax ==> outMin <= r <= outMax
    ensures outMin <= out <= outMax ==> r == out
    ensures r == out || r == outMax || r == outMin
    ensures out > outMax ==> r == outMax
  {
    if out > outMax then outMax else if out < outMin then outMin else out
  }

  /**
   * Proportional plus integral plus derivative term, before clamping. `iErr` is
   * the integral error after this step's update, `prevErr` the error of the
   * previous step.
   */
  function Unclamped(P: real, I: real, D: real, error: real, iErr: real, prevErr: real, deltaT: real): real
    requires deltaT != 0.0
  {
    P * error + I * iErr + D * ((error - prevErr) / deltaT)
  }

  /** The error state a controller carries from one update to the next. */
  datatype ErrorState = ErrorState(iErr: real, prevErr: real)

  /** One `Update` input: the error, whether it is NaN, and the time step. */
  datatype Sample = Sample(error: real, errorIsNaN: bool, deltaT: real)

  /** An update that returns at once and leaves the error state alone. */
  predicate Skipped(x: Sample)
  {
    x.deltaT == 0.0 || x.errorIsNaN
  }

  /** The error state after one `Update`. */
  function Advance(s: ErrorState, x: Sample): ErrorState
  {
    if Skipped(x) then s else ErrorState(s.iErr + x.deltaT * x.error, x.error)
  }

  /** The error state after a series of `Update` calls, oldest sample first. */
  function Run(s: ErrorState, xs: seq<Sample>): ErrorState
  {
    if xs == [] then s else Advance(Run(s, xs[..|xs| - 1]), xs[|xs| - 1])
  }

  /** Sum of `DeltaT * Error` over the samples that were not skipped. */
  function Accumulated(xs: seq<Sample>): real
  {
    if xs == [] then 0.0
    else
      var x := xs[|xs| - 1];
      Accumulated(xs[..|xs| - 1]) + (if Skipped(x) then 0.0 else x.deltaT * x.error)
  }

  /** The error of the last sample that was not skipped, `None` if there is none. */
  function LastCounted(xs: seq<Sample>): Option<real>
  {
    if xs == [] then None
    else if !Skipped(xs[|xs| - 1]) then Some(xs[|xs| - 1].error)
    else LastCounted(xs[..|xs| - 1])
  }

  /**
   * After any series of updates the integral error has grown by exactly the
   * sum of `DeltaT * Error` over the samples that were not skipped.
   */
  lemma {:induction false} RunIntegral(s: ErrorState, xs: seq<Sample>)
    ensures Run(s, xs).iErr == s.iErr + Accumulated(xs)
    decreases |xs|
  {
    if xs != [] {
      RunIntegral(s, xs[..|xs| - 1]);
    }
  }

  /**
   * After any series of updates the previous error is the error of the last
   * sample that was not skipped, or unchanged if every sample was skipped.
   */
  lemma {:induction false} RunPrevErr(s: ErrorState, xs: seq<Sample>)
    ensures Run(s, xs).prevErr == (if LastCounted(xs).Some? then LastCounted(xs).value else s.prevErr)
    decreases |xs|
  {
    if xs != [] && Skipped(xs[|xs| - 1]) {
      RunPrevErr(s, xs[..|xs| - 1]);
    }
  }

  /** `FRPid`: gains, output limits and the error state. */
  class Pid {
    var P: real
    var I: real
    var D: real
    var OutMax: real
    var OutMin: real
    var PrevErr: real
    var IErr: real

    function State(): ErrorState
      reads this
    {
      ErrorState(IErr, PrevErr)
    }

    /** Stores the gains and limits, each 0 unless given; the error state starts at zero. */
    constructor (p: real := 0.0, i: real := 0.0, d: real := 0.0, outMax: real := 0.0, outMin: real := 0.0)
      ensures P == p && I == i && D == d && OutMax == outMax && OutMin == outMin
      ensures IErr == 0.0 && PrevErr == 0.0
    {
      P, I, D, OutMax, OutMin := p, i, d, outMax, outMin;
      IErr := 0.0;
      PrevErr := 0.0;
    }

    /** Stores all five parameters, each 0 unless given, then resets the error state. */
    method Init(p: real := 0.0, i: real := 0.0, d: real := 0.0, outMax: real := 0.0, outMin: real := 0.0)
      modifies this
      ensures P == p && I == i && D == d && OutMax == outMax && OutMin == outMin
      ensures IErr == 0.0 && PrevErr == 0.0
    {
      P := p;
      I := i;
      D := d;
      OutMax := outMax;
      OutMin := outMin;
      Reset();
    }

    /**
     * One controller step. A zero time step or a NaN error returns 0 and
     * leaves the error state alone; otherwise the integral error grows by
     * `DeltaT * Error`, the previous error becomes `Error`, and the clamped
     * sum of the three terms is returned.
     */
    method Update(error: real, errorIsNaN: bool, deltaT: real) returns (out: real)
      modifies this`IErr, this`PrevErr
      ensures State() == Advance(old(State()), Sample(error, errorIsNaN, deltaT))
      ensures deltaT == 0.0 || errorIsNaN ==> out == 0.0 && IErr == old(IErr) && PrevErr == old(PrevErr)
      ensures deltaT != 0.0 && !errorIsNaN ==>
        IErr == old(IErr) + deltaT * error && PrevErr == error &&
        out == Clamp(Unclamped(P, I, D, error, IErr, old(PrevErr), deltaT), OutMax, OutMin)
      ensures deltaT != 0.0 && !errorIsNaN && OutMin <= OutMax ==> OutMin <= out <= OutMax
    {
      if deltaT == 0.0 || errorIsNaN {
        return 0.0;
      }
      var pOut := P * error;
      IErr := IErr + deltaT * error;
      var iOut := I * IErr;
      var dErr := (error - PrevErr) / deltaT;
      var dOut := D * dErr;
      PrevErr := error;
      var o := pOut + iOut + dOut;
      if o > OutMax {
        out := OutMax;
      } else if o < OutMin {
        out := OutMin;
      } else {
        out := o;
      }
    }

    /** Zeroes the error state; gains and limits stay as they are. */
    method Reset()
      modifies this`IErr, this`PrevErr
      ensures IErr == 0.0 && PrevErr == 0.0
    {
      PrevErr := 0.0;
      IErr := 0.0;
    }
  }
}
