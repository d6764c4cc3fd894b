/**
 * The three-component PID controller `FRPid3d` (Control/RPid3d.h), on vectors
 * of reals standing for `FVector`. Unlike `FRPid` it has no NaN test.
 */
module Pid3dControl {
  import PidControl

  /** `FVector`. */
  datatype Vector = Vector(x: real, y: real, z: real)

  const Zero := Vector(0.0, 0.0, 0.0)

  function Add(a: Vector, b: Vector): Vector
  {
    Vector(a.x + b.x, a.y + b.y, a.z + b.z)
  }

  function Sub(a: Vector, b: Vector): Vector
  {
    Vector(a.x - b.x, a.y - b.y, a.z - b.z)
  }

  function Scale(k: real, v: Vector): Vector
  {
    Vector(k * v.x, k * v.y, k * v.z)
  }

  function Div(v: Vector, k: real): Vector
    requires k != 0.0
  {
    Vector(v.x / k, v.y / k, v.z / k)
  }

  /** Proportional plus integral plus derivative term, before clamping. */
  function Unclamped(P: real, I: real, D: real, error: Vector, iErr: Vector, prevErr: Vector, deltaT: real): Vector
    requires deltaT != 0.0
  {
    Add(Add(Scale(P, error), Scale(I, iErr)), Scale(D, Div(Sub(error, prevErr), deltaT)))
  }

  /**
   * The clamp of `FRPid3d::Update` as it is written: each component is
   * compared with `OutMax` on its own, but the lower test of all three
   * components looks at `Out.X`.
   */
  function ClampAsWritten(out: Vector, outMax: real, outMin: real): (r: Vector)
    ensures r.x == PidControl.Clamp(out.x, outMax, outMin)
    ensures outMin <= outMax ==> r.x <= outMax && r.y <= outMax && r.z <= outMax
    ensures outMin <= outMax ==> outMin <= r.x
    ensures out.y > outMax ==> r.y == outMax
    ensures out.z > outMax ==> r.z == outMax
    ensures out.x < outMin && out.y <= outMax ==> r.y == outMin
    ensures out.x < outMin && out.z <= outMax ==> r.z == outMin
    ensures out.x >= outMin ==> r.y == (if out.y > outMax then outMax else out.y)
    ensures out.x >= outMin ==> r.z == (if out.z > outMax then outMax else out.z)
  {
    Vector(
      if out.x > outMax then outMax else if out.x < outMin then outMin else out.x,
      if out.y > outMax then outMax else if out.x < outMin then outMin else out.y,
      if out.z > outMax then outMax else if out.x < outMin then outMin else out.z)
  }

  /** The per-component clamp the comment of `FRPid3d::Update` describes. */
  function ClampPerComponent(out: Vector, outMax: real, outMin: real): (r: Vector)
    ensures r.x == PidControl.Clamp(out.x, outMax, outMin)
    ensures r.y == PidControl.Clamp(out.y, outMax, outMin)
    ensures r.z == PidControl.Clamp(out.z, outMax, outMin)
  {
    Vector(
      PidControl.Clamp(out.x, outMax, outMin),
      PidControl.Clamp(out.y, outMax, outMin),
      PidControl.Clamp(out.z, outMax, outMin))
  }

  /** With ordered limits every component of the per-component clamp is in range. */
  lemma PerComponentInRange(out: Vector, outMax: real, outMin: real)
    requires outMin <= outMax
    ensures outMin <= ClampPerComponent(out, outMax, outMin).x <= outMax
    ensures outMin <= ClampPerComponent(out, outMax, outMin).y <= outMax
    ensures outMin <= ClampPerComponent(out, outMax, outMin).z <= outMax
  {
  }

  /** The clamp as written lets Y come back below `OutMin` when X is in range. */
  lemma AsWrittenLetsYBelowMin()
    ensures ClampAsWritten(Vector(0.0, -5.0, 0.0), 1.0, -1.0).y == -5.0
    ensures ClampPerComponent(Vector(0.0, -5.0, 0.0), 1.0, -1.0).y == -1.0
  {
  }

  /** The clamp as written moves an in-range Y to `OutMin` when X is below it. */
  lemma AsWrittenRaisesInRangeY()
    ensures ClampAsWritten(Vector(-5.0, 0.0, 0.0), 1.0, -1.0).y == -1.0
    ensures ClampPerComponent(Vector(-5.0, 0.0, 0.0), 1.0, -1.0).y == 0.0
  {
  }

  /**
   * The two clamps agree whenever the lower test on X decides Y and Z the same
   * way their own lower tests would.
   */
  lemma ClampsAgree(out: Vector, outMax: real, outMin: real)
    requires (out.x < outMin <==> out.y < outMin) && (out.x < outMin <==> out.z < outMin)
    ensures ClampAsWritten(out, outMax, outMin) == ClampPerComponent(out, outMax, outMin)
  {
  }

  /** The error state a 3-D controller carries from one update to the next. */
  datatype ErrorState = ErrorState(iErr: Vector, prevErr: Vector)

  /** The error state after one `Update`. */
  function Advance(s: ErrorState, error: Vector, deltaT: real): ErrorState
  {
    if deltaT == 0.0 then s else ErrorState(Add(s.iErr, Scale(deltaT, error)), error)
  }

  /** The output of one `Update` from the error state before it. */
  function Output(P: real, I: real, D: real, outMax: real, outMin: real, s: ErrorState, error: Vector, deltaT: real): Vector
  {
    if deltaT == 0.0 then Zero
    else ClampAsWritten(Unclamped(P, I, D, error, Advance(s, error, deltaT).iErr, s.prevErr, deltaT), outMax, outMin)
  }

  function XState(s: ErrorState): PidControl.ErrorState
  {
    PidControl.ErrorState(s.iErr.x, s.prevErr.x)
  }

  /**
   * The X channel of the 3-D controller is the scalar controller run on the X
   * components: same error state after the step and same output.
   */
  lemma XChannelIsScalarPid(P: real, I: real, D: real, outMax: real, outMin: real, s: ErrorState, error: Vector, deltaT: real)
    requires deltaT != 0.0
    ensures XState(Advance(s, error, deltaT)) == PidControl.Advance(XState(s), PidControl.Sample(error.x, false, deltaT))
    ensures Output(P, I, D, outMax, outMin, s, error, deltaT).x ==
      PidControl.Clamp(PidControl.Unclamped(P, I, D, error.x, s.iErr.x + deltaT * error.x, s.prevErr.x, deltaT), outMax, outMin)
  {
    var iErr := Advance(s, error, deltaT).iErr;
    assert iErr.x == s.iErr.x + deltaT * error.x;
    var u := Unclamped(P, I, D, error, iErr, s.prevErr, deltaT);
    assert u.x == PidControl.Unclamped(P, I, D, error.x, iErr.x, s.prevErr.x, deltaT);
  }

  /** `FRPid3d`: gains, output limits and the vector error state. */
  class Pid3d {
    var P: real
    var I: real
    var D: real
    var OutMax: real
    var OutMin: real
    var PrevErr: Vector
    var IErr: Vector

    function State(): ErrorState
      reads this
    {
      ErrorState(IErr, PrevErr)
    }

    /** Stores the gains and limits, each 0 unless given; both error vectors start at zero. */
    constructor (p: real := 0.0, i: real := 0.0, d: real := 0.0, outMax: real := 0.0, outMin: real := 0.0)
      ensures P == p && I == i && D == d && OutMax == outMax && OutMin == outMin
      ensures IErr == Zero && PrevErr == Zero
    {
      P, I, D, OutMax, OutMin := p, i, d, outMax, outMin;
      IErr := Zero;
      PrevErr := Zero;
    }

    /** Stores all five parameters, each 0 unless given, then resets the error state. */
    method Init(p: real := 0.0, i: real := 0.0, d: real := 0.0, outMax: real := 0.0, outMin: real := 0.0)
      modifies this
      ensures P == p && I == i && D == d && OutMax == outMax && OutMin == outMin
      ensures IErr == Zero && PrevErr == Zero
    {
      P := p;
      I := i;
      D := d;
      OutMax := outMax;
      OutMin := outMin;
      Reset();
    }

    /**
     * One controller step. A zero time step returns the zero vector and leaves
     * the error state alone; otherwise the integral error grows by
     * `DeltaT * Error` componentwise, the previous error becomes `Error`, and the
     * sum of the three terms is returned through the clamp as written.
     */
    method Update(error: Vector, deltaT: real) returns (out: Vector)
      modifies this`IErr, this`PrevErr
      ensures State() == Advance(old(State()), error, deltaT)
      ensures out == Output(P, I, D, OutMax, OutMin, old(State()), error, deltaT)
      ensures deltaT == 0.0 ==> out == Zero && IErr == old(IErr) && PrevErr == old(PrevErr)
      ensures deltaT != 0.0 ==>
        IErr == Vector(old(IErr).x + deltaT * error.x, old(IErr).y + deltaT * error.y, old(IErr).z + deltaT * error.z) &&
        PrevErr == error
      ensures deltaT != 0.0 && OutMin <= OutMax ==>
        out.x <= OutMax && out.y <= OutMax && out.z <= OutMax && OutMin <= out.x
    {
      if deltaT == 0.0 {
        return Zero;
      }
      var pOut := Scale(P, error);
      IErr := Add(IErr, Scale(deltaT, error));
      var iOut := Scale(I, IErr);
      var dErr := Div(Sub(error, PrevErr), deltaT);
      var dOut := Scale(D, dErr);
      PrevErr := error;
      var o := Add(Add(pOut, iOut), dOut);
      out := Vector(
        if o.x > OutMax then OutMax else if o.x < OutMin then OutMin else o.x,
        if o.y > OutMax then OutMax else if o.x < OutMin then OutMin else o.y,
        if o.z > OutMax then OutMax else if o.x < OutMin then OutMin else o.z);
    }

    /** Zeroes both error vectors; gains and limits stay as they are. */
    method Reset()
      modifies this`IErr, this`PrevErr
      ensures IErr == Zero && PrevErr == Zero
    {
      IErr := Zero;
      PrevErr := Zero;
    }
  }

  /**
   * A controller declared without arguments, as the hand's `HandPID3D`
   * member is: every gain and limit is 0 and so is the error state.
   */
  method DefaultController() returns (c: Pid3d)
    ensures c.P == 0.0 && c.I == 0.0 && c.D == 0.0 && c.OutMax == 0.0 && c.OutMin == 0.0
    ensures c.IErr == Zero && c.PrevErr == Zero
  {
    c := new Pid3d();
  }
}
