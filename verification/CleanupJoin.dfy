/**
  `finish_cleanup`: the final join of owned work, which survives any number of
  cancellations of its caller.
 */
module CleanupJoin {
  import opened Common

  type ErrorId = nat

  /** How the cleanup task ends. */
  datatype TaskEnd = Succeeded | Failed(error: ErrorId) | TaskCancelled(error: ErrorId)

  datatype Prior = NoPriorError | PriorError

  datatype Outcome =
    | Returned
    | Raised(error: ErrorId)

  /** What one `await asyncio.shield(task)` does. */
  datatype Await = ShieldReturned | ShieldRaised(error: ErrorId) | CancelledError(error: ErrorId)

  /**
    The caller is cancelled `|cancels|` times before the cleanup task ends; with `together` the
    last of these arrives in the same turn of the loop as its end. The method
    leaves only when that task is done. Unless it was cancelled, the first
    cancellation of the caller is raised again; without one, an error of the cleanup is
    raised if and only if there was no prior error.
   */
  method FinishCleanup(cancels: seq<ErrorId>, together: bool, end: TaskEnd, prior: Prior)
    returns (outcome: Outcome, done: bool, awaits: nat)
    ensures done
    ensures awaits == |cancels| + (if together && cancels != [] then 0 else 1)
    ensures end.TaskCancelled? ==> outcome == Raised(end.error)
    ensures !end.TaskCancelled? && cancels != [] ==> outcome == Raised(cancels[0])
    ensures !end.TaskCancelled? && cancels == [] ==>
              (outcome.Raised? <==> end.Failed? && prior.NoPriorError?)
    ensures !end.TaskCancelled? && cancels == [] && outcome.Raised? ==> outcome.error == end.error
  {
    done := false;
    awaits := 0;
    var interrupted: Option<ErrorId> := None;
    var seen := 0;
    while !done
      invariant 0 <= seen <= |cancels| && awaits >= seen
      invariant interrupted == (if seen > 0 then Some(cancels[0]) else None)
             || (done && end.TaskCancelled?)
      invariant !done ==> awaits == seen && (seen == |cancels| && seen > 0 ==> !together)
      invariant done ==> seen == |cancels| && awaits == |cancels| + (if together && cancels != [] then 0 else 1)
      decreases !done, |cancels| - seen
    {
      var wake: Await;
      if seen < |cancels| {
        wake, seen := CancelledError(cancels[seen]), seen + 1;
        done := together && seen == |cancels|;
      } else {
        wake := match end case Succeeded => ShieldReturned case Failed(e) => ShieldRaised(e) case TaskCancelled(e) => CancelledError(e);
        done := true;
      }
      awaits := awaits + 1;
      match wake
      case CancelledError(error) =>
        if interrupted.None? {
          interrupted := Some(error);
        }
      case ShieldRaised(_) => break;
      case ShieldReturned =>
    }
    // task.result(): a cancellation of that task itself is not an `Exception`.
    match end {
      case TaskCancelled(error) =>
        outcome := Raised(error);
        return;
      case Failed(error) =>
        if prior.NoPriorError? && interrupted.None? {
          outcome := Raised(error);
          return;
        }
      case Succeeded =>
    }
    outcome := if interrupted.Some? then Raised(interrupted.value) else Returned;
  }
}
