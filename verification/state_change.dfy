/**
 * ASSUMED MODEL of the Terraform plugin SDK's convergence waiter
 * (`resource.StateChangeConf.WaitForStateContext`) and of the helper
 * `tfresource.SetLastError`. Neither is part of the modelled source; both are
 * written from their documented rules so that the callers' configurations can be
 * reasoned about.
 *
 * Time is abstracted away: a wait is given the finite sequence of refresh results
 * that arrive before its deadline. Reaching the end of that sequence without a
 * decision is the timeout, which returns a nil payload. Delays, backoff and cancellation are not modelled.
 */
module StateChange {
  import opened Wrappers

  /** A duration in nanoseconds, as Go's `time.Duration`. */
  type Duration = nat

  const Minute: Duration := 60 * 1_000_000_000

  /**
   * One call of the refresh function: a state label with a non-nil payload, a nil
   * payload (the resource is gone), or an error.
   */
  datatype Poll<T> = Observed(state: string, payload: T) | Absent | RefreshFailed(cause: string)

  /** The errors a wait ends with. `lastError` is the reason a caller may attach. */
  datatype WaitError =
    | TimeoutError(lastState: string, expectedState: seq<string>, lastError: Option<string>)
    | UnexpectedStateError(state: string, expectedState: seq<string>, lastError: Option<string>)
    | RefreshError(cause: string)

  /** What a wait returns: the last payload seen (nil when there is none) and its error. */
  datatype Outcome<T> = Outcome(payload: Option<T>, err: Option<WaitError>)

  /**
   * A waiter configuration. An empty `target` means that the resource being gone is
   * success. `refresh` describes which refresh function the caller configured.
   */
  datatype StateChangeConf<R> = StateChangeConf(pending: seq<string>, target: seq<string>, refresh: R, timeout: Duration)

  /** What one poll makes the waiter do. */
  datatype Step<T> = Continue | Stop(outcome: Outcome<T>)

  /** The decision the waiter takes on a single poll. */
  function Decide<T, R>(conf: StateChangeConf<R>, poll: Poll<T>): Step<T>
  {
    match poll
    case RefreshFailed(cause) => Stop(Outcome(None, Some(RefreshError(cause))))
    case Absent => if |conf.target| == 0 then Stop(Outcome(None, None)) else Continue
    case Observed(state, payload) =>
      if state in conf.target then Stop(Outcome(Some(payload), None))
      else if state in conf.pending then Continue
      else Stop(Outcome(Some(payload), Some(UnexpectedStateError(state, conf.target, None))))
  }

  /** A poll that ends the wait successfully. */
  predicate Converged<T, R>(conf: StateChangeConf<R>, poll: Poll<T>)
  {
    || (poll.Observed? && poll.state in conf.target)
    || (poll.Absent? && |conf.target| == 0)
  }

  /** The state label a poll reports, empty when it reports none. */
  function StateOf<T>(poll: Poll<T>): string
  {
    if poll.Observed? then poll.state else ""
  }

  /** An error a caller may attach a reason to. */
  predicate Annotatable(e: WaitError)
  {
    e.TimeoutError? || e.UnexpectedStateError?
  }

  /** The poll loop, remembering the last state for the timeout error; a timeout returns no payload. */
  function Run<T, R>(conf: StateChangeConf<R>, polls: seq<Poll<T>>, lastState: string): (r: Outcome<T>)
    // Success comes from a target label, or from absence when the target is empty.
    ensures r.err.None? ==> (r.payload.None? <==> |conf.target| == 0)
    // An unexpected state is neither pending nor target.
    ensures r.err.Some? && r.err.value.UnexpectedStateError? ==>
              r.err.value.state !in conf.pending && r.err.value.state !in conf.target
    // The waiter itself never attaches a reason.
    ensures r.err.Some? && Annotatable(r.err.value) ==> r.err.value.lastError.None?
    // A timeout hands back no payload.
    ensures r.err.Some? && r.err.value.TimeoutError? ==> r.payload.None?
    decreases |polls|
  {
    if |polls| == 0 then Outcome(None, Some(TimeoutError(lastState, conf.target, None)))
    else
      match Decide(conf, polls[0])
      case Stop(outcome) => outcome
      case Continue =>
        Run(conf, polls[1..], StateOf(polls[0]))
  }

  /** `WaitForStateContext`: polls until a decision, or times out at the end of `polls`. */
  function WaitForState<T, R>(conf: StateChangeConf<R>, polls: seq<Poll<T>>): (r: Outcome<T>)
    ensures r.err.None? ==> (r.payload.None? <==> |conf.target| == 0)
    ensures r.err.Some? && Annotatable(r.err.value) ==> r.err.value.lastError.None?
    ensures r.err.Some? && r.err.value.TimeoutError? ==> r.payload.None?
  {
    Run(conf, polls, "")
  }

  /** Every poll before index `k` lets the wait go on. */
  predicate ContinuesBefore<T, R>(conf: StateChangeConf<R>, polls: seq<Poll<T>>, k: nat)
    requires k <= |polls|
  {
    forall i :: 0 <= i < k ==> Decide(conf, polls[i]).Continue?
  }

  lemma {:induction false} RunDecidedByFirstStop<T, R>(conf: StateChangeConf<R>, polls: seq<Poll<T>>, k: nat, lastState: string)
    requires k < |polls|
    requires ContinuesBefore(conf, polls, k)
    requires Decide(conf, polls[k]).Stop?
    ensures Run(conf, polls, lastState) == Decide(conf, polls[k]).outcome
    decreases k
  {
    if k > 0 {
      assert Decide(conf, polls[0]).Continue?;
      assert ContinuesBefore(conf, polls[1..], k - 1) by {
        forall i | 0 <= i < k - 1 ensures Decide(conf, polls[1..][i]).Continue? {
          assert polls[1..][i] == polls[i + 1];
        }
      }
      RunDecidedByFirstStop(conf, polls[1..], k - 1, StateOf(polls[0]));
    }
  }

  /**
   * The wait ends with the verdict of the first poll that is not a "keep polling":
   * nothing after it is looked at.
   */
  lemma WaitDecidedByFirstStop<T, R>(conf: StateChangeConf<R>, polls: seq<Poll<T>>, k: nat)
    requires k < |polls|
    requires ContinuesBefore(conf, polls, k)
    requires Decide(conf, polls[k]).Stop?
    ensures WaitForState(conf, polls) == Decide(conf, polls[k]).outcome
  {
    RunDecidedByFirstStop(conf, polls, k, "");
  }

  lemma {:induction false} RunTimesOut<T, R>(conf: StateChangeConf<R>, polls: seq<Poll<T>>, lastState: string)
    requires |polls| > 0
    requires ContinuesBefore(conf, polls, |polls|)
    ensures Run(conf, polls, lastState) ==
              Outcome(None, Some(TimeoutError(StateOf(polls[|polls| - 1]), conf.target, None)))
    decreases |polls|
  {
    assert Decide(conf, polls[0]).Continue?;
    if |polls| > 1 {
      assert ContinuesBefore(conf, polls[1..], |polls| - 1) by {
        forall i | 0 <= i < |polls| - 1 ensures Decide(conf, polls[1..][i]).Continue? {
          assert polls[1..][i] == polls[i + 1];
        }
      }
      RunTimesOut(conf, polls[1..], StateOf(polls[0]));
    }
  }

  /**
   * When every poll before the deadline says "keep polling", the wait times out,
   * reporting the last poll's state and returning no payload.
   */
  lemma WaitTimesOut<T, R>(conf: StateChangeConf<R>, polls: seq<Poll<T>>)
    requires |polls| > 0
    requires ContinuesBefore(conf, polls, |polls|)
    ensures WaitForState(conf, polls) ==
              Outcome(None, Some(TimeoutError(StateOf(polls[|polls| - 1]), conf.target, None)))
  {
    RunTimesOut(conf, polls, "");
  }

  lemma {:induction false} RunSuccessWitness<T, R>(conf: StateChangeConf<R>, polls: seq<Poll<T>>, lastState: string)
    requires Run(conf, polls, lastState).err.None?
    ensures exists k :: 0 <= k < |polls| && ContinuesBefore(conf, polls, k) && Converged(conf, polls[k])
    decreases |polls|
  {
    assert |polls| > 0;
    if Decide(conf, polls[0]).Stop? {
      assert ContinuesBefore(conf, polls, 0);
      assert Converged(conf, polls[0]);
    } else {
      RunSuccessWitness(conf, polls[1..], StateOf(polls[0]));
      var k :| 0 <= k < |polls[1..]| && ContinuesBefore(conf, polls[1..], k) && Converged(conf, polls[1..][k]);
      assert ContinuesBefore(conf, polls, k + 1) by {
        forall i | 0 <= i < k + 1 ensures Decide(conf, polls[i]).Continue? {
          if i > 0 {
            assert polls[i] == polls[1..][i - 1];
          }
        }
      }
      assert polls[k + 1] == polls[1..][k];
    }
  }

  /**
   * A wait succeeds exactly when some poll converges and every poll before it says
   * "keep polling".
   */
  lemma WaitSucceedsIffConverged<T, R>(conf: StateChangeConf<R>, polls: seq<Poll<T>>)
    ensures WaitForState(conf, polls).err.None? <==>
              exists k :: 0 <= k < |polls| && ContinuesBefore(conf, polls, k) && Converged(conf, polls[k])
  {
    if WaitForState(conf, polls).err.None? {
      RunSuccessWitness(conf, polls, "");
    }
    if exists k :: 0 <= k < |polls| && ContinuesBefore(conf, polls, k) && Converged(conf, polls[k]) {
      var k :| 0 <= k < |polls| && ContinuesBefore(conf, polls, k) && Converged(conf, polls[k]);
      WaitDecidedByFirstStop(conf, polls, k);
    }
  }

  /**
   * With an empty target, the only way a wait succeeds is by the resource
   * disappearing, and then it returns no payload.
   */
  lemma EmptyTargetSucceedsOnlyOnAbsence<T, R>(conf: StateChangeConf<R>, polls: seq<Poll<T>>)
    requires |conf.target| == 0
    requires WaitForState(conf, polls).err.None?
    ensures WaitForState(conf, polls).payload.None?
    ensures exists k :: 0 <= k < |polls| && ContinuesBefore(conf, polls, k) && polls[k].Absent?
  {
    WaitSucceedsIffConverged(conf, polls);
  }

  /**
   * Polls after the decision do not matter: a wait that ended before the deadline
   * ends the same way when more polls would have fitted.
   */
  lemma WaitIgnoresLaterPolls<T, R>(conf: StateChangeConf<R>, polls: seq<Poll<T>>, later: seq<Poll<T>>, k: nat)
    requires k < |polls|
    requires ContinuesBefore(conf, polls, k)
    requires Decide(conf, polls[k]).Stop?
    ensures WaitForState(conf, polls + later) == WaitForState(conf, polls)
  {
    WaitDecidedByFirstStop(conf, polls, k);
    assert ContinuesBefore(conf, polls + later, k) by {
      forall i | 0 <= i < k ensures Decide(conf, (polls + later)[i]).Continue? {
        assert (polls + later)[i] == polls[i];
      }
    }
    assert (polls + later)[k] == polls[k];
    WaitDecidedByFirstStop(conf, polls + later, k);
  }

  /**
   * `tfresource.SetLastError` (ASSUMED): fills in the reason of a timeout or
   * unexpected-state error that has none; leaves every other error, and a nil
   * error, as it is.
   */
  function SetLastError(err: Option<WaitError>, lastError: string): (r: Option<WaitError>)
    ensures err.None? ==> r.None?
    ensures err.Some? ==> r.Some? && (r.value.TimeoutError? <==> err.value.TimeoutError?)
                                  && (r.value.UnexpectedStateError? <==> err.value.UnexpectedStateError?)
    ensures err.Some? && Annotatable(err.value) && err.value.lastError.None? ==>
              r == Some(err.value.(lastError := Some(lastError)))
    ensures err.Some? && !(Annotatable(err.value) && err.value.lastError.None?) ==> r == err
  {
    match err
    case Some(TimeoutError(lastState, expected, None)) => Some(TimeoutError(lastState, expected, Some(lastError)))
    case Some(UnexpectedStateError(state, expected, None)) => Some(UnexpectedStateError(state, expected, Some(lastError)))
    case _ => err
  }
}
