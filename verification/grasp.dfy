/**
 * The grasp bookkeeping of `FRGrasp` (Player/RGrasp.h): the grasp state and
 * the set of blocked fingers. Only the class declaration is available, so the
 * model follows what the declarations and their comments promise; `Update`
 * and `GetStateAsString` are not part of this model.
 */
module GraspState {

  /** `ERHandPart`. */
  datatype HandPart = Thumb | Index | Middle | Ring | Pinky | Palm | Wrist

  /** `ERGraspState`. */
  datatype State = Opened | Opening | Closed | Closing | Free | Blocked | Attached

  /** The sequence holds no part twice. */
  predicate NoDuplicates(s: seq<HandPart>)
  {
    forall i, j :: 0 <= i < j < |s| ==> s[i] != s[j]
  }

  /** `s` without any occurrence of `f`, order kept. */
  function Without(s: seq<HandPart>, f: HandPart): (r: seq<HandPart>)
    ensures forall g :: g in r <==> g in s && g != f
    ensures NoDuplicates(s) ==> NoDuplicates(r)
  {
    if s == [] then []
    else if s[0] == f then Without(s[1..], f)
    else
      var rest := Without(s[1..], f);
      assert NoDuplicates(s) ==> s[0] !in s[1..] by {
        if NoDuplicates(s) {
          forall k | 0 <= k < |s| - 1 ensures s[1..][k] != s[0] {
            assert s[1..][k] == s[k + 1];
          }
        }
      }
      [s[0]] + rest
  }

  /** `FRGrasp`: the grasp state and the array of blocked fingers. */
  class Grasp {
    var GraspState: State
    var BlockedFingers: seq<HandPart>

    ghost predicate Valid()
      reads this
    {
      NoDuplicates(BlockedFingers)
    }

    /** The fingers that grasping currently leaves alone. */
    ghost function Blocked(): set<HandPart>
      reads this
    {
      set f | f in BlockedFingers
    }

    /** A new grasp: opened, no finger blocked. */
    constructor ()
      ensures Valid()
      ensures GraspState == Opened && Blocked() == {}
    {
      GraspState := Opened;
      BlockedFingers := [];
    }

    method SetState(s: State)
      modifies this`GraspState
      ensures GraspState == s
    {
      GraspState := s;
    }

    method GetState() returns (s: State)
      ensures s == GraspState
    {
      s := GraspState;
    }

    /** Adds the finger to the blocked ones; other fingers and the state are unchanged. */
    method BlockFinger(f: HandPart)
      requires Valid()
      modifies this`BlockedFingers
      ensures Valid()
      ensures Blocked() == old(Blocked()) + {f}
    {
      if f !in BlockedFingers {
        BlockedFingers := BlockedFingers + [f];
      }
    }

    /** Removes the finger from the blocked ones; other fingers and the state are unchanged. */
    method FreeFinger(f: HandPart)
      requires Valid()
      modifies this`BlockedFingers
      ensures Valid()
      ensures Blocked() == old(Blocked()) - {f}
    {
      BlockedFingers := Without(BlockedFingers, f);
    }

    /** Frees every finger. */
    method FreeFingers()
      modifies this`BlockedFingers
      ensures Valid()
      ensures Blocked() == {}
    {
      BlockedFingers := [];
    }

    method IsFingerBlocked(f: HandPart) returns (b: bool)
      ensures b <==> f in Blocked()
    {
      b := f in BlockedFingers;
    }
  }

  /**
   * What a client of `FRGrasp` can rely on: a state that was set is read back,
   * a blocked finger reads as blocked, a freed one as free, and blocking or
   * freeing one finger leaves the others and the state as they were.
   */
  method GraspClient(g: Grasp, s: State, f: HandPart, other: HandPart)
    requires g.Valid() && f != other
    modifies g
    ensures g.Valid() && g.GraspState == s && g.Blocked() == {}
  {
    g.SetState(s);
    var before := g.IsFingerBlocked(other);
    g.BlockFinger(f);
    var st := g.GetState();
    var blocked := g.IsFingerBlocked(f);
    var otherNow := g.IsFingerBlocked(other);
    assert st == s && blocked && otherNow == before;
    g.FreeFinger(f);
    blocked := g.IsFingerBlocked(f);
    otherNow := g.IsFingerBlocked(other);
    assert !blocked && otherNow == before;
    g.FreeFingers();
    otherNow := g.IsFingerBlocked(other);
    assert !otherNow;
  }
}
