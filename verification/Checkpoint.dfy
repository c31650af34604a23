/** The durable control state of one VM: the journal, the command intent that
    executes it, and the actuation latch. */
module Checkpoint {
  import opened Arithmetic
  import opened Device
  import opened Requests
  import opened Wrappers

  datatype Direction = Grow | Shrink | SettleGrow | SettleShrink

  datatype Intent = Intent(
    operation: nat,
    started: U64,
    direction: Direction,
    priorRequested: U64,
    priorCurrent: U64,
    target: U64
  )

  /** `latched` stands for a present latch reason. */
  datatype Control = Control(latched: bool, intent: Option<Intent>, journal: Journal) {
    function IntentTarget(): U64 { if intent.Some? then intent.value.target else 0 }

    /** What every saved state satisfies. */
    predicate Durable() {
      && journal.Valid()
      && (intent.Some? <==> journal.request.Some? && journal.Unresolved())
      && (journal.result.Some? && !journal.result.value.Terminal() ==> latched)
      && (latched && journal.request.Some? ==> journal.result.Some?)
    }
  }

  const FRESH := Control(false, None, Journal(None, None))

  datatype Ownership =
    | Unowned
    | UnownedPending
    | OwnedPending
    | OwnedConverged
    | RecordedNotApplied
    | Conflict

  function CommandOwnership(intent: Option<Intent>, live: VirtioMemState): Ownership {
    if intent.None? then
      if live.Converged() then Unowned else UnownedPending
    else if live.requested == intent.value.target then
      if live.current == intent.value.target then OwnedConverged else OwnedPending
    else if live.requested == intent.value.priorRequested && live.current == intent.value.priorCurrent then
      RecordedNotApplied
    else
      Conflict
  }

  /** Device movement in the direction the request asked for. */
  function Moved(operation: Operation, before: U64, after: U64): U64 {
    match operation
    case Add => SatSub(after, before)
    case Remove => SatSub(before, after)
  }

  function MovementResult(request: Request, before: U64, live: VirtioMemState, now: U64,
                          explained: bool): MemoryResult {
    var moved := Min(Moved(request.operation, before, live.current), request.bytes);
    MemoryResult(request, if moved == request.bytes then Completed else Partial, moved, now, explained)
  }

  /** The result reports exactly the movement from `before` to `after`, capped at
      the bytes asked for, and is complete exactly when all of them moved. */
  predicate Accounts(result: MemoryResult, before: U64, after: U64) {
    var moved := Max(0, if result.request.operation.Add? then after - before else before - after);
    && result.actual == Min(result.request.bytes, moved)
    && (result.outcome.Completed? <==> result.request.bytes <= moved)
    && (result.outcome.Partial? <==> moved < result.request.bytes)
  }

  /** The state an applied `clear-latch` saves on a converged device, unless it refuses. */
  function ClearLatch(control: Control, live: VirtioMemState, now: U64): Option<Control> {
    if !live.Valid() || !live.Converged() || !control.latched then None
    else if control.journal.request.Some? && control.journal.Unresolved() then
      var request := control.journal.request.value;
      var result :=
        if control.intent.Some?
        then MovementResult(request, control.intent.value.priorCurrent, live, now, true)
        else RejectedResult(request, now);
      var recorded := control.journal.Record(result);
      if recorded.None? then None else Some(Control(false, None, recorded.value))
    else Some(Control(false, None, control.journal))
  }

  /** A latched state can be cleared on any converged device once the clock has passed
      the uncertain result. What is left has neither latch nor intent; an unresolved
      request got the movement since its command, or was refused if it had none. */
  lemma ClearLatchRecovers(control: Control, live: VirtioMemState, now: U64)
    requires control.Durable() && control.latched && live.Valid() && live.Converged()
    ensures ClearLatch(control, live, now).Some? <==>
            (control.intent.Some? ==> 0 < now && control.journal.result.value.observed <= now)
    ensures ClearLatch(control, live, now).Some? ==>
              var cleared := ClearLatch(control, live, now).value;
              && cleared.Durable() && !cleared.latched && cleared.intent.None?
              && if control.intent.None? then cleared.journal == control.journal
                 else
                   && cleared.journal.request == control.journal.request && cleared.journal.result.Some?
                   && var result := cleared.journal.result.value;
                   && result.observed == now && result.explained
                   && Accounts(result, control.intent.value.priorCurrent, live.current)
  {
  }
}
