/**
 * The CloudFormation waiter: polls `describe_stacks` until the stack reaches
 * the status the waiter type targets, retrying while the status is still in
 * progress, for at most `MAX_TRIES` polls.
 *
 * The replies of `describe_stacks` are an input: `replies(k)` is the reply to
 * the k-th poll (counting from 0).  The 30-second sleep and the progress
 * message between polls are not modelled.
 */
module Waiter {
  import opened Wrappers
  import opened Strings
  import opened Exceptions

  datatype WaiterType = Create | Update | Delete

  const WAITER_TYPE_CREATE: string := "stack_create_complete"
  const WAITER_TYPE_UPDATE: string := "stack_update_complete"
  const WAITER_TYPE_DELETE: string := "stack_delete_complete"

  const POLL_INTERVAL: nat := 30
  const MAX_TRIES: nat := 120

  const TIMEOUT_MESSAGE: string := "The stack operation took too long to complete."

  function WaiterTypeName(t: WaiterType): string {
    match t
    case Create => WAITER_TYPE_CREATE
    case Update => WAITER_TYPE_UPDATE
    case Delete => WAITER_TYPE_DELETE
  }

  /** The status a waiter of this type waits for. */
  function TargetStatus(t: WaiterType): string {
    match t
    case Create => "CREATE_COMPLETE"
    case Update => "UPDATE_COMPLETE"
    case Delete => "DELETE_COMPLETE"
  }

  /** The verb used in the progress message. */
  function ActionWord(t: WaiterType): string {
    match t
    case Create => "creating"
    case Update => "updating"
    case Delete => "deleting"
  }

  /**
   * The check in the constructor: the type name must be one of the three
   * waiter names, otherwise `ValueError`.
   */
  function ParseWaiterType(name: string): (r: Result<WaiterType, Error>)
    ensures r.Ok? <==> name in {WAITER_TYPE_CREATE, WAITER_TYPE_UPDATE, WAITER_TYPE_DELETE}
    ensures r.Ok? ==> WaiterTypeName(r.value) == name
    ensures r.Err? ==> r.error == ValueError("Unknown waiter type: " + name)
  {
    if name == WAITER_TYPE_CREATE then Ok(Create)
    else if name == WAITER_TYPE_UPDATE then Ok(Update)
    else if name == WAITER_TYPE_DELETE then Ok(Delete)
    else Err(ValueError("Unknown waiter type: " + name))
  }

  /** Each waiter type has its own name, and the name gives the type back. */
  lemma WaiterTypeNameRoundTrip(t: WaiterType)
    ensures ParseWaiterType(WaiterTypeName(t)) == Ok(t)
  {
  }

  /** A reply of `describe_stacks`: the stacks' statuses, or a client error with its text. */
  datatype Reply = Stacks(statuses: seq<string>) | Failure(message: string)

  /** What one poll decides. */
  datatype Step = Done | Retry | Raise(error: Error)

  /** A client error that reports the stack as gone. */
  predicate IsStackMissing(message: string) {
    Contains(message, "ValidationError") && Contains(message, "does not exist")
  }

  /** The decision taken on one reply, in the order the waiter checks its cases. */
  function Classify(t: WaiterType, reply: Reply): Step {
    match reply
    case Failure(message) =>
      if IsStackMissing(message) && t == Delete then Done else Raise(ClientError(message))
    case Stacks(statuses) =>
      if |statuses| == 0 then Raise(IndexError)
      else if statuses[0] == TargetStatus(t) then Done
      else if Contains(statuses[0], "IN_PROGRESS") then Retry
      else Raise(CloudFormationError(statuses[0]))
  }

  /**
   * The outcome of waiting after `done` polls have already asked to retry:
   * the result and the total number of polls made.
   */
  function WaitFrom(t: WaiterType, replies: nat -> Reply, done: nat): (Result<(), Error>, nat)
    requires done <= MAX_TRIES
    decreases MAX_TRIES - done
  {
    if done == MAX_TRIES then (Err(RuntimeError(TIMEOUT_MESSAGE)), done)
    else match Classify(t, replies(done))
      case Done => (Ok(()), done + 1)
      case Retry => WaitFrom(t, replies, done + 1)
      case Raise(e) => (Err(e), done + 1)
  }

  class VerboseCloudFormationWaiter {
    const waiterType: WaiterType
    const targetStatus: string
    const action: string

    ghost predicate Valid() {
      targetStatus == TargetStatus(waiterType) && action == ActionWord(waiterType)
    }

    constructor(t: WaiterType)
      ensures waiterType == t && Valid()
    {
      waiterType := t;
      targetStatus := TargetStatus(t);
      action := ActionWord(t);
    }

    /** Poll until the stack is done, fails, or `MAX_TRIES` polls have asked to retry. */
    method Wait(replies: nat -> Reply) returns (result: Result<(), Error>, polls: nat)
      requires Valid()
      ensures (result, polls) == WaitFrom(waiterType, replies, 0)
    {
      var tries: nat := 0;
      ghost var outcome := WaitFrom(waiterType, replies, tries);
      while tries < MAX_TRIES
        invariant tries <= MAX_TRIES
        invariant WaitFrom(waiterType, replies, tries) == outcome
      {
        var reply := replies(tries);
        ghost var step := Classify(waiterType, reply);
        if step != Retry {
          DecisiveStep(waiterType, replies, tries);
        }
        tries := tries + 1;
        match reply
        case Failure(message) =>
          if IsStackMissing(message) && waiterType == Delete {
            return Ok(()), tries;
          } else {
            return Err(ClientError(message)), tries;
          }
        case Stacks(statuses) =>
          if |statuses| == 0 {
            return Err(IndexError), tries;
          }
          var status := statuses[0];
          if status == targetStatus {
            return Ok(()), tries;
          } else if !Contains(status, "IN_PROGRESS") {
            return Err(CloudFormationError(status)), tries;
          }
      }
      return Err(RuntimeError(TIMEOUT_MESSAGE)), tries;
    }
  }

  /** A poll that does not ask to retry ends the wait with its own decision. */
  lemma DecisiveStep(t: WaiterType, replies: nat -> Reply, done: nat)
    requires done < MAX_TRIES
    requires Classify(t, replies(done)) != Retry
    ensures var step := Classify(t, replies(done));
      WaitFrom(t, replies, done) == (if step == Done then Ok(()) else Err(step.error), done + 1)
  {
  }

  /** A status other than the target that is still in progress leads to one more poll. */
  lemma InProgressPollsAgain(t: WaiterType, replies: nat -> Reply, done: nat, status: string)
    requires done < MAX_TRIES
    requires replies(done) == Stacks([status])
    requires status != TargetStatus(t) && Contains(status, "IN_PROGRESS")
    ensures WaitFrom(t, replies, done) == WaitFrom(t, replies, done + 1)
  {
  }

  /** Build a waiter from its type name; unknown names raise `ValueError`. */
  method NewWaiter(name: string) returns (r: Result<VerboseCloudFormationWaiter, Error>)
    ensures r.Err? <==> ParseWaiterType(name).Err?
    ensures r.Err? ==> r.error == ParseWaiterType(name).error
    ensures r.Ok? ==> fresh(r.value) && r.value.Valid() && WaiterTypeName(r.value.waiterType) == name
  {
    var t := ParseWaiterType(name);
    match t
    case Err(e) => r := Err(e);
    case Ok(wt) =>
      var w := new VerboseCloudFormationWaiter(wt);
      r := Ok(w);
  }

  // ---------------------------------------------------------------------------
  // What waiting guarantees

  /**
   * Every wait ends after between 1 and `MAX_TRIES` polls; every poll but the
   * last asked to retry; the last poll decides the result, except when all
   * `MAX_TRIES` polls asked to retry, which is a timeout.
   */
  lemma {:induction false} WaitFromOutcome(t: WaiterType, replies: nat -> Reply, done: nat)
    requires done <= MAX_TRIES
    requires forall k :: 0 <= k < done ==> Classify(t, replies(k)) == Retry
    ensures var (result, polls) := WaitFrom(t, replies, done);
      && done <= polls <= MAX_TRIES
      && (forall k :: 0 <= k < polls - 1 ==> Classify(t, replies(k)) == Retry)
      && (result.Ok? <==> polls >= 1 && Classify(t, replies(polls - 1)) == Done)
      && (result == Err(RuntimeError(TIMEOUT_MESSAGE)) <==>
            polls == MAX_TRIES && Classify(t, replies(MAX_TRIES - 1)) == Retry)
      && (result.Err? && result != Err(RuntimeError(TIMEOUT_MESSAGE)) ==>
            polls >= 1 && Classify(t, replies(polls - 1)) == Raise(result.error))
    decreases MAX_TRIES - done
  {
    if done < MAX_TRIES && Classify(t, replies(done)) == Retry {
      WaitFromOutcome(t, replies, done + 1);
    }
  }

  lemma WaitOutcome(t: WaiterType, replies: nat -> Reply)
    ensures var (result, polls) := WaitFrom(t, replies, 0);
      && 1 <= polls <= MAX_TRIES
      && (forall k :: 0 <= k < polls - 1 ==> Classify(t, replies(k)) == Retry)
      && (result.Ok? <==> Classify(t, replies(polls - 1)) == Done)
      && (result == Err(RuntimeError(TIMEOUT_MESSAGE)) <==>
            polls == MAX_TRIES && Classify(t, replies(MAX_TRIES - 1)) == Retry)
      && (result.Err? && result != Err(RuntimeError(TIMEOUT_MESSAGE)) ==>
            Classify(t, replies(polls - 1)) == Raise(result.error))
  {
    WaitFromOutcome(t, replies, 0);
  }

  /** The first reply that does not ask to retry decides the wait, at that poll. */
  lemma {:induction false} FirstDecisiveReply(t: WaiterType, replies: nat -> Reply, n: nat, done: nat, step: Step)
    requires done <= n < MAX_TRIES
    requires forall k :: done <= k < n ==> Classify(t, replies(k)) == Retry
    requires step == Classify(t, replies(n)) && step != Retry
    ensures WaitFrom(t, replies, done) == (if step == Done then Ok(()) else Err(step.error), n + 1)
    decreases n - done
  {
    if done < n {
      FirstDecisiveReply(t, replies, n, done + 1, step);
    }
  }

  /** A status equal to the target, after polls still in progress, ends the wait successfully. */
  lemma ReachesTarget(t: WaiterType, replies: nat -> Reply, n: nat)
    requires n < MAX_TRIES
    requires forall k :: 0 <= k < n ==> Classify(t, replies(k)) == Retry
    requires replies(n).Stacks? && |replies(n).statuses| > 0 && replies(n).statuses[0] == TargetStatus(t)
    ensures WaitFrom(t, replies, 0) == (Ok(()), n + 1)
  {
    FirstDecisiveReply(t, replies, n, 0, Classify(t, replies(n)));
  }

  /** An unexpected status, after polls still in progress, raises `CloudFormationError` with it. */
  lemma UnexpectedStatus(t: WaiterType, replies: nat -> Reply, n: nat, status: string)
    requires n < MAX_TRIES
    requires forall k :: 0 <= k < n ==> Classify(t, replies(k)) == Retry
    requires replies(n) == Stacks([status])
    requires status != TargetStatus(t) && !Contains(status, "IN_PROGRESS")
    ensures WaitFrom(t, replies, 0) == (Err(CloudFormationError(status)), n + 1)
  {
    FirstDecisiveReply(t, replies, n, 0, Classify(t, replies(n)));
  }

  /** A stack that stays in progress makes the waiter give up after exactly `MAX_TRIES` polls. */
  lemma TimesOut(t: WaiterType, replies: nat -> Reply)
    requires forall k :: 0 <= k < MAX_TRIES ==> Classify(t, replies(k)) == Retry
    ensures WaitFrom(t, replies, 0) == (Err(RuntimeError(TIMEOUT_MESSAGE)), MAX_TRIES)
  {
    WaitOutcome(t, replies);
  }

  /** A "does not exist" validation error ends a delete wait successfully, and fails the others. */
  lemma StackMissingOnlyEndsDelete(t: WaiterType, message: string)
    requires IsStackMissing(message)
    ensures Classify(t, Failure(message)) == Done <==> t == Delete
    ensures t != Delete ==> Classify(t, Failure(message)) == Raise(ClientError(message))
  {
  }
}
