/**
 Results of the validators. A check either passes (`Ok`) or fails with the
 first violation it finds (`Err`), naming the kind of violation, the argument
 the failing check was applied to and, where the error carries one, the
 argument's position label.
 */
module Outcomes {

  datatype Option<+T> = None | Some(value: T)

  datatype ErrorKind =
    | LayoutMismatch     // wrong storage layout for the argument's role
    | HybridUnsupported  // sparse tensor with dense trailing dimensions
    | RankMismatch       // wrong number of dimensions
    | NotAMatrix         // wrong number of dimensions where a matrix was required
    | SizeMismatch       // wrong rank or wrong size at a given dimension
    | DTypeMismatch      // wrong element type
    | DeviceMismatch     // tensor on the wrong device
    | DimOutOfRange      // a size was read at a dimension the tensor does not have

  datatype CheckError = CheckError(kind: ErrorKind, arg: string, pos: Option<nat>)

  datatype Outcome = Ok | Err(error: CheckError) {

    /** Sequential composition of checks: the first failure wins. */
    function Then(next: Outcome): Outcome {
      if Err? then this else next
    }
  }

  /** One entry of an ordered table of checks: whether its condition holds
      and the error reported when it is the first that does not. */
  datatype Step = Step(holds: bool, error: CheckError)

  /** Runs an ordered table of checks, stopping at the first violation. */
  function FirstFailure(steps: seq<Step>): (r: Outcome)
    ensures r.Ok? <==> forall i :: 0 <= i < |steps| ==> steps[i].holds
  {
    if |steps| == 0 then Ok
    else if !steps[0].holds then Err(steps[0].error)
    else FirstFailure(steps[1..])
  }

  /** Step `i` is the earliest step of `steps` whose condition fails. */
  predicate FirstFailingAt(steps: seq<Step>, i: int) {
    && 0 <= i < |steps|
    && !steps[i].holds
    && forall j :: 0 <= j < i ==> steps[j].holds
  }

  /** The error reported is exactly that of the earliest failing step. */
  lemma {:induction false} FirstFailureIsFirst(steps: seq<Step>, i: int)
    requires FirstFailingAt(steps, i)
    ensures FirstFailure(steps) == Err(steps[i].error)
  {
    if i > 0 {
      assert steps[0].holds;
      FirstFailureIsFirst(steps[1..], i - 1);
    }
  }

  /** Every reported error comes from an earliest failing step. */
  lemma {:induction false} FirstFailureWitness(steps: seq<Step>)
    requires FirstFailure(steps).Err?
    ensures exists i :: FirstFailingAt(steps, i) && FirstFailure(steps).error == steps[i].error
  {
    if steps[0].holds {
      FirstFailureWitness(steps[1..]);
      var k :| FirstFailingAt(steps[1..], k) && FirstFailure(steps[1..]).error == steps[1..][k].error;
      assert FirstFailingAt(steps, k + 1);
    } else {
      assert FirstFailingAt(steps, 0);
    }
  }

  /** Running two tables one after the other is running their concatenation. */
  lemma {:induction false} FirstFailureAppend(a: seq<Step>, b: seq<Step>)
    ensures FirstFailure(a + b) == FirstFailure(a).Then(FirstFailure(b))
  {
    if |a| > 0 {
      assert (a + b)[1..] == a[1..] + b;
      FirstFailureAppend(a[1..], b);
    } else {
      assert a + b == b;
    }
  }
}
