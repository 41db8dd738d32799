/**
 * The Lex model-building waiters: each configures the convergence waiter with a
 * pending and a target label list, runs it, and post-processes the payload it
 * returns. Refresh results arrive as the sequence of polls made before the deadline.
 */
module LexWait {
  import opened Wrappers
  import opened StateChange

  /** Bot status values of the Lex model-building API. */
  const StatusBuilding: string := "BUILDING"
  const StatusReady: string := "READY"
  const StatusReadyBasicTesting: string := "READY_BASIC_TESTING"
  const StatusFailed: string := "FAILED"
  const StatusNotBuilt: string := "NOT_BUILT"

  /** The label the alias, intent and slot-type refresh functions report for an existing resource. */
  const ServiceStatusCreated: string := "CREATED"

  /** The version name of the working copy of a bot or slot type. */
  const BotVersionLatest: string := "$LATEST"
  const SlotTypeVersionLatest: string := "$LATEST"

  const BotAliasDeletedTimeout: Duration := 5 * Minute
  const IntentDeletedTimeout: Duration := 5 * Minute

  /** `GetBotOutput`, reduced to the fields the waiters read and identify it by. */
  datatype GetBotOutput = GetBotOutput(name: Option<string>, version: Option<string>, status: Option<string>, failureReason: Option<string>)

  /** `GetBotAliasOutput`, reduced to its identifying fields. */
  datatype GetBotAliasOutput = GetBotAliasOutput(name: Option<string>, botName: Option<string>, botVersion: Option<string>)

  /** `GetIntentVersionsOutput`: the listed versions and the pagination token. */
  datatype GetIntentVersionsOutput = GetIntentVersionsOutput(versions: seq<string>, nextToken: Option<string>)

  /** `GetSlotTypeOutput`, reduced to its identifying fields. */
  datatype GetSlotTypeOutput = GetSlotTypeOutput(name: Option<string>, version: Option<string>)

  /** The dynamically typed payload a refresh function hands the waiter. */
  datatype Output =
    | BotOutput(bot: GetBotOutput)
    | BotAliasOutput(botAlias: GetBotAliasOutput)
    | IntentVersionsOutput(intentVersions: GetIntentVersionsOutput)
    | SlotTypeOutput(slotType: GetSlotTypeOutput)

  /** Which refresh function a waiter polls, with its arguments. */
  datatype Refresh =
    | StatusBotVersion(name: string, version: string)
    | StatusBotAlias(botAliasName: string, botName: string)
    | StatusIntent(intentId: string)
    | StatusSlotType(name: string, version: string)

  /** A waiter's typed return: the output pointer (nil when absent or mistyped) and the error. */
  datatype Typed<O> = Typed(output: Option<O>, err: Option<WaitError>)

  // ---------------------------------------------------------------------------
  // Configurations
  // ---------------------------------------------------------------------------

  /** The statuses a bot can rest in after a build that did not fail. */
  const BuiltStatuses: seq<string> := [StatusNotBuilt, StatusReady, StatusReadyBasicTesting]

  function BotVersionCreatedConf(name: string, version: string, timeout: Duration): (conf: StateChangeConf<Refresh>)
    ensures conf.timeout == timeout
  {
    StateChangeConf([StatusBuilding], BuiltStatuses, StatusBotVersion(name, version), timeout)
  }

  function BotDeletedConf(name: string, timeout: Duration): (conf: StateChangeConf<Refresh>)
    ensures conf.timeout == timeout
  {
    StateChangeConf(BuiltStatuses, [], StatusBotVersion(name, BotVersionLatest), timeout)
  }

  function BotAliasDeletedConf(botAliasName: string, botName: string): (conf: StateChangeConf<Refresh>)
    ensures conf.timeout == 5 * Minute
  {
    StateChangeConf([ServiceStatusCreated], [], StatusBotAlias(botAliasName, botName), BotAliasDeletedTimeout)
  }

  function IntentDeletedConf(intentId: string): (conf: StateChangeConf<Refresh>)
    ensures conf.timeout == 5 * Minute
  {
    StateChangeConf([ServiceStatusCreated], [], StatusIntent(intentId), IntentDeletedTimeout)
  }

  /** `slotTypeDeleteTimeout` is a package constant defined outside this model, so it is passed in. */
  function SlotTypeDeletedConf(name: string, slotTypeDeleteTimeout: Duration): (conf: StateChangeConf<Refresh>)
    ensures conf.timeout == slotTypeDeleteTimeout
  {
    StateChangeConf([ServiceStatusCreated], [], StatusSlotType(name, SlotTypeVersionLatest), slotTypeDeleteTimeout)
  }

  // ---------------------------------------------------------------------------
  // Post-processing
  // ---------------------------------------------------------------------------

  function AsBot(raw: Option<Output>): Option<GetBotOutput>
  {
    if raw.Some? && raw.value.BotOutput? then Some(raw.value.bot) else None
  }

  function AsBotAlias(raw: Option<Output>): Option<GetBotAliasOutput>
  {
    if raw.Some? && raw.value.BotAliasOutput? then Some(raw.value.botAlias) else None
  }

  function AsIntentVersions(raw: Option<Output>): Option<GetIntentVersionsOutput>
  {
    if raw.Some? && raw.value.IntentVersionsOutput? then Some(raw.value.intentVersions) else None
  }

  function AsSlotType(raw: Option<Output>): Option<GetSlotTypeOutput>
  {
    if raw.Some? && raw.value.SlotTypeOutput? then Some(raw.value.slotType) else None
  }

  /** The bot's status is `FAILED`; a nil status reads as the empty string. */
  predicate IsFailedBot(bot: GetBotOutput)
  {
    bot.status.GetOr("") == StatusFailed
  }

  /**
   * Post-processing shared by the two bot waiters: a bot payload is returned as it
   * is, and when it reports `FAILED` its failure reason is attached to the error;
   * any other payload gives a nil output and the error untouched.
   */
  function PostProcessBot(raw: Outcome<Output>): (r: Typed<GetBotOutput>)
    ensures r.output == AsBot(raw.payload)
    ensures r.output.None? ==> r.err == raw.err
    ensures r.output.Some? && !IsFailedBot(r.output.value) ==> r.err == raw.err
    ensures r.output.Some? && IsFailedBot(r.output.value) ==>
              r.err == SetLastError(raw.err, r.output.value.failureReason.GetOr(""))
  {
    match AsBot(raw.payload)
    case Some(output) =>
      if IsFailedBot(output) then Typed(Some(output), SetLastError(raw.err, output.failureReason.GetOr("")))
      else Typed(Some(output), raw.err)
    case None => Typed(None, raw.err)
  }

  // ---------------------------------------------------------------------------
  // Waiters
  // ---------------------------------------------------------------------------

  function WaitBotVersionCreated(name: string, version: string, timeout: Duration, polls: seq<Poll<Output>>): (r: Typed<GetBotOutput>)
    ensures r.output == AsBot(WaitForState(BotVersionCreatedConf(name, version, timeout), polls).payload)
  {
    PostProcessBot(WaitForState(BotVersionCreatedConf(name, version, timeout), polls))
  }

  function WaitBotDeleted(name: string, timeout: Duration, polls: seq<Poll<Output>>): (r: Typed<GetBotOutput>)
    ensures r.output == AsBot(WaitForState(BotDeletedConf(name, timeout), polls).payload)
  {
    PostProcessBot(WaitForState(BotDeletedConf(name, timeout), polls))
  }

  function WaitBotAliasDeleted(botAliasName: string, botName: string, polls: seq<Poll<Output>>): (r: Typed<GetBotAliasOutput>)
    ensures var raw := WaitForState(BotAliasDeletedConf(botAliasName, botName), polls);
            r.err == raw.err && r.output == AsBotAlias(raw.payload)
  {
    var raw := WaitForState(BotAliasDeletedConf(botAliasName, botName), polls);
    Typed(AsBotAlias(raw.payload), raw.err)
  }

  function WaitIntentDeleted(intentId: string, polls: seq<Poll<Output>>): (r: Typed<GetIntentVersionsOutput>)
    ensures var raw := WaitForState(IntentDeletedConf(intentId), polls);
            r.err == raw.err && r.output == AsIntentVersions(raw.payload)
  {
    var raw := WaitForState(IntentDeletedConf(intentId), polls);
    Typed(AsIntentVersions(raw.payload), raw.err)
  }

  function WaitSlotTypeDeleted(name: string, slotTypeDeleteTimeout: Duration, polls: seq<Poll<Output>>): (r: Typed<GetSlotTypeOutput>)
    ensures var raw := WaitForState(SlotTypeDeletedConf(name, slotTypeDeleteTimeout), polls);
            r.err == raw.err && r.output == AsSlotType(raw.payload)
  {
    var raw := WaitForState(SlotTypeDeletedConf(name, slotTypeDeleteTimeout), polls);
    Typed(AsSlotType(raw.payload), raw.err)
  }

  // ---------------------------------------------------------------------------
  // Properties of the configurations
  // ---------------------------------------------------------------------------

  /** No label is both pending and target, in any of the five configurations. */
  lemma PendingAndTargetDisjoint(name: string, version: string, botAliasName: string, botName: string, intentId: string, timeout: Duration, s: string)
    ensures var c := BotVersionCreatedConf(name, version, timeout); !(s in c.pending && s in c.target)
    ensures var c := BotDeletedConf(name, timeout); !(s in c.pending && s in c.target)
    ensures var c := BotAliasDeletedConf(botAliasName, botName); !(s in c.pending && s in c.target)
    ensures var c := IntentDeletedConf(intentId); !(s in c.pending && s in c.target)
    ensures var c := SlotTypeDeletedConf(name, timeout); !(s in c.pending && s in c.target)
  {
  }

  /** `FAILED` is neither pending nor target for either bot waiter. */
  lemma FailedIsNeitherPendingNorTarget(name: string, version: string, timeout: Duration)
    ensures StatusFailed !in BotVersionCreatedConf(name, version, timeout).pending
    ensures StatusFailed !in BotVersionCreatedConf(name, version, timeout).target
    ensures StatusFailed !in BotDeletedConf(name, timeout).pending
    ensures StatusFailed !in BotDeletedConf(name, timeout).target
  {
  }

  /** Deleting a bot keeps polling while the bot rests in any status a finished build can leave. */
  lemma BotDeletedPendsOnBuiltStatuses(name: string, version: string, timeout: Duration, deleteTimeout: Duration)
    ensures BotDeletedConf(name, deleteTimeout).pending == BotVersionCreatedConf(name, version, timeout).target
  {
  }

  /** The three other delete waiters all pend on `CREATED` and have an empty target. */
  lemma ServiceDeleteWaitersPendOnCreated(botAliasName: string, botName: string, intentId: string, name: string, slotTypeDeleteTimeout: Duration, botDeleteTimeout: Duration)
    ensures BotAliasDeletedConf(botAliasName, botName).pending == [ServiceStatusCreated]
    ensures IntentDeletedConf(intentId).pending == [ServiceStatusCreated]
    ensures SlotTypeDeletedConf(name, slotTypeDeleteTimeout).pending == [ServiceStatusCreated]
    ensures |BotAliasDeletedConf(botAliasName, botName).target| == 0
    ensures |IntentDeletedConf(intentId).target| == 0
    ensures |SlotTypeDeletedConf(name, slotTypeDeleteTimeout).target| == 0
    ensures |BotDeletedConf(name, botDeleteTimeout).target| == 0
  {
  }

  // ---------------------------------------------------------------------------
  // Properties of the waiters
  // ---------------------------------------------------------------------------

  /**
   * A `FAILED` bot ends the build wait as an unexpected state, never as success,
   * and its failure reason is attached to that error.
   */
  lemma BotVersionFailedSurfacesReason(name: string, version: string, timeout: Duration, polls: seq<Poll<Output>>, k: nat, bot: GetBotOutput)
    requires k < |polls|
    requires forall i :: 0 <= i < k ==> polls[i].Observed? && polls[i].state == StatusBuilding
    requires polls[k] == Observed(StatusFailed, BotOutput(bot))
    requires IsFailedBot(bot)
    ensures WaitBotVersionCreated(name, version, timeout, polls) ==
              Typed(Some(bot), Some(UnexpectedStateError(StatusFailed, BuiltStatuses, Some(bot.failureReason.GetOr("")))))
  {
    var conf := BotVersionCreatedConf(name, version, timeout);
    assert ContinuesBefore(conf, polls, k) by {
      forall i | 0 <= i < k ensures Decide(conf, polls[i]).Continue? {
        assert polls[i].state == StatusBuilding;
      }
    }
    WaitDecidedByFirstStop(conf, polls, k);
  }

  /**
   * The same for a bot that fails while it is being deleted: the delete wait ends
   * as an unexpected state carrying the failure reason.
   */
  lemma BotDeletedFailedSurfacesReason(name: string, timeout: Duration, polls: seq<Poll<Output>>, k: nat, bot: GetBotOutput)
    requires k < |polls|
    requires forall i :: 0 <= i < k ==> polls[i].Observed? && polls[i].state in BuiltStatuses
    requires polls[k] == Observed(StatusFailed, BotOutput(bot))
    requires IsFailedBot(bot)
    ensures WaitBotDeleted(name, timeout, polls) ==
              Typed(Some(bot), Some(UnexpectedStateError(StatusFailed, [], Some(bot.failureReason.GetOr("")))))
  {
    var conf := BotDeletedConf(name, timeout);
    assert ContinuesBefore(conf, polls, k) by {
      forall i | 0 <= i < k ensures Decide(conf, polls[i]).Continue? {
        assert polls[i].state in conf.pending;
      }
    }
    WaitDecidedByFirstStop(conf, polls, k);
  }

  /**
   * The bot waiters only ever annotate an error: a successful wait stays successful
   * whatever the payload says, and the reason is attached exactly when the payload
   * is a failed bot and the waiter timed out or met an unexpected state.
   */
  lemma BotReasonAttachedOnlyForFailedBot(raw: Outcome<Output>)
    requires raw.err.Some? ==> Annotatable(raw.err.value) ==> raw.err.value.lastError.None?
    ensures raw.err.None? ==> PostProcessBot(raw).err.None?
    ensures PostProcessBot(raw).err != raw.err <==>
              && AsBot(raw.payload).Some? && IsFailedBot(AsBot(raw.payload).value)
              && raw.err.Some? && Annotatable(raw.err.value)
  {
  }

  /** A delete waiter that succeeds saw the resource disappear and returns a nil output. */
  lemma DeleteWaitersSucceedOnlyOnAbsence(name: string, timeout: Duration, botAliasName: string, botName: string, intentId: string, polls: seq<Poll<Output>>)
    ensures WaitBotDeleted(name, timeout, polls).err.None? ==>
              WaitBotDeleted(name, timeout, polls).output.None? && exists k :: 0 <= k < |polls| && polls[k].Absent?
    ensures WaitBotAliasDeleted(botAliasName, botName, polls).err.None? ==>
              WaitBotAliasDeleted(botAliasName, botName, polls).output.None? && exists k :: 0 <= k < |polls| && polls[k].Absent?
    ensures WaitIntentDeleted(intentId, polls).err.None? ==>
              WaitIntentDeleted(intentId, polls).output.None? && exists k :: 0 <= k < |polls| && polls[k].Absent?
    ensures WaitSlotTypeDeleted(name, timeout, polls).err.None? ==>
              WaitSlotTypeDeleted(name, timeout, polls).output.None? && exists k :: 0 <= k < |polls| && polls[k].Absent?
  {
    if WaitBotDeleted(name, timeout, polls).err.None? {
      EmptyTargetSucceedsOnlyOnAbsence(BotDeletedConf(name, timeout), polls);
    }
    if WaitBotAliasDeleted(botAliasName, botName, polls).err.None? {
      EmptyTargetSucceedsOnlyOnAbsence(BotAliasDeletedConf(botAliasName, botName), polls);
    }
    if WaitIntentDeleted(intentId, polls).err.None? {
      EmptyTargetSucceedsOnlyOnAbsence(IntentDeletedConf(intentId), polls);
    }
    if WaitSlotTypeDeleted(name, timeout, polls).err.None? {
      EmptyTargetSucceedsOnlyOnAbsence(SlotTypeDeletedConf(name, timeout), polls);
    }
  }

  /**
   * A build wait that succeeds stopped at the first poll that did not keep it polling
   * (every earlier poll was `BUILDING` or found no bot); that poll reported a built
   * status, and the output is its payload when it is a bot.
   */
  lemma BotVersionCreatedSucceedsOnBuiltStatus(name: string, version: string, timeout: Duration, polls: seq<Poll<Output>>)
    requires WaitBotVersionCreated(name, version, timeout, polls).err.None?
    ensures exists k :: 0 <= k < |polls| && ContinuesBefore(BotVersionCreatedConf(name, version, timeout), polls, k)
                        && polls[k].Observed? && polls[k].state in BuiltStatuses
                        && WaitBotVersionCreated(name, version, timeout, polls).output == AsBot(Some(polls[k].payload))
  {
    var conf := BotVersionCreatedConf(name, version, timeout);
    WaitSucceedsIffConverged(conf, polls);
    var k :| 0 <= k < |polls| && ContinuesBefore(conf, polls, k) && Converged(conf, polls[k]);
    WaitDecidedByFirstStop(conf, polls, k);
  }

  /** Polls before index `k` all report a state in `pending` and the resource is gone at `k`. */
  predicate PendingThenAbsent(pending: seq<string>, polls: seq<Poll<Output>>, k: nat)
  {
    && k < |polls|
    && (forall i :: 0 <= i < k ==> polls[i].Observed? && polls[i].state in pending)
    && polls[k].Absent?
  }

  lemma {:induction false} EmptyTargetConvergesOnAbsence(conf: StateChangeConf<Refresh>, polls: seq<Poll<Output>>, k: nat)
    requires |conf.target| == 0
    requires PendingThenAbsent(conf.pending, polls, k)
    ensures WaitForState(conf, polls) == Outcome(None, None)
  {
    assert ContinuesBefore(conf, polls, k) by {
      forall i | 0 <= i < k ensures Decide(conf, polls[i]).Continue? {
        assert polls[i].state in conf.pending;
      }
    }
    WaitDecidedByFirstStop(conf, polls, k);
  }

  /**
   * Each delete waiter succeeds when the resource disappears after polls that stay
   * in its pending list, and then returns a nil output.
   */
  lemma DeleteWaitersSucceedOnAbsence(name: string, timeout: Duration, botAliasName: string, botName: string, intentId: string, polls: seq<Poll<Output>>, k: nat)
    ensures PendingThenAbsent(BuiltStatuses, polls, k) ==> WaitBotDeleted(name, timeout, polls) == Typed(None, None)
    ensures PendingThenAbsent([ServiceStatusCreated], polls, k) ==>
              && WaitBotAliasDeleted(botAliasName, botName, polls) == Typed(None, None)
              && WaitIntentDeleted(intentId, polls) == Typed(None, None)
              && WaitSlotTypeDeleted(name, timeout, polls) == Typed(None, None)
  {
    if PendingThenAbsent(BuiltStatuses, polls, k) {
      EmptyTargetConvergesOnAbsence(BotDeletedConf(name, timeout), polls, k);
    }
    if PendingThenAbsent([ServiceStatusCreated], polls, k) {
      EmptyTargetConvergesOnAbsence(BotAliasDeletedConf(botAliasName, botName), polls, k);
      EmptyTargetConvergesOnAbsence(IntentDeletedConf(intentId), polls, k);
      EmptyTargetConvergesOnAbsence(SlotTypeDeletedConf(name, timeout), polls, k);
    }
  }

  /**
   * A bot waiter that times out returns a nil output and the timeout error as the
   * waiter gave it: with no payload there is no status to inspect, so no reason is attached.
   */
  lemma BotWaitersTimeOutWithoutOutput(name: string, version: string, timeout: Duration, polls: seq<Poll<Output>>)
    ensures var raw := WaitForState(BotVersionCreatedConf(name, version, timeout), polls);
            raw.err.Some? && raw.err.value.TimeoutError? ==> WaitBotVersionCreated(name, version, timeout, polls) == Typed(None, raw.err)
    ensures var raw := WaitForState(BotDeletedConf(name, timeout), polls);
            raw.err.Some? && raw.err.value.TimeoutError? ==> WaitBotDeleted(name, timeout, polls) == Typed(None, raw.err)
  {
  }

  /** A poll sequence of two builds and a ready bot succeeds with the ready bot. */
  lemma BuildThenReadyScenario(name: string, version: string, timeout: Duration, building: GetBotOutput, ready: GetBotOutput)
    requires !IsFailedBot(ready)
    ensures WaitBotVersionCreated(name, version, timeout,
              [Observed(StatusBuilding, BotOutput(building)), Observed(StatusBuilding, BotOutput(building)), Observed(StatusReady, BotOutput(ready))])
            == Typed(Some(ready), None)
  {
    var polls := [Observed(StatusBuilding, BotOutput(building)), Observed(StatusBuilding, BotOutput(building)), Observed(StatusReady, BotOutput(ready))];
    WaitDecidedByFirstStop(BotVersionCreatedConf(name, version, timeout), polls, 2);
  }
}
