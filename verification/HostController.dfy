/** The host's controller of one VM. The object holds the controller's own
    fields together with the checkpoint file and the device it works on, so that
    one call shows every effect. The ghost `log` records the run of the host
    protocol that the calls so far amount to. */
module HostController {
  import opened Arithmetic
  import opened Device
  import opened Requests
  import opened Checkpoint
  import opened HostProtocol
  import opened Grants
  import opened Wrappers

  datatype Charge = Charge(bytes: U64, block: U64)

  /** A guest publication: total RAM, native Low pressure, and its request. */
  datatype Envelope = Envelope(total: U64, low: bool, request: Option<Request>)

  /** The clock, a request for shutdown, and the memory the host has available. */
  datatype Boundary = Boundary(now: U64, stop: bool, available: U64)

  /** What the outside answers during one poll: whether live state can be read,
      the clock, the guest's publication, how long the allocation has stood
      still (a poll interval, the convergence timeout), whether a settlement's
      deadline has passed, and whether shutdown was requested. `boundary` is what is
      found when the VM's turn to act comes, later in the round. */
  datatype Poll = Poll(
    readable: bool,
    now: U64,
    envelope: Option<Envelope>,
    idle: bool,
    stuck: bool,
    expired: bool,
    stop: bool,
    boundary: Boundary
  )

  /** `Ended` is an error that ends the daemon. */
  datatype Turn = Wait | Stop | Ended

  datatype Ready = Ready(baseRam: U64, state: VirtioMemState, request: Request)

  datatype Observation = Held(charge: Option<Charge>) | ToAct(ready: Ready) | Stopping | Failed

  function DeviceCharge(device: VirtioMemState): U64 { Max(device.requested, device.current) }

  function ChargeOf(control: Control, device: VirtioMemState): U64 {
    Max(DeviceCharge(device), control.IntentTarget())
  }

  /** What growth still to come counts for; of a VM never read, anything may come. */
  function Owing(growth: Option<U64>): U64 { if growth.Some? then growth.value else U64_MAX }

  /** What a resize that may have run adds to the memory the device is asked to hold. */
  ghost function GrowthOf(s: Sent): nat {
    if s.command.Resize? && !s.answer.Rejection? then SatSub(s.target, s.device.current) else 0
  }

  ghost function TotalGrowth(sent: seq<Sent>): nat {
    if sent == [] then 0 else TotalGrowth(sent[..|sent| - 1]) + GrowthOf(sent[|sent| - 1])
  }

  lemma GrowthAdds(sent: seq<Sent>, s: Sent)
    ensures TotalGrowth(sent + [s]) == TotalGrowth(sent) + GrowthOf(s)
  {
    assert (sent + [s])[..|sent|] == sent;
  }

  /** A run of the host protocol and the world it ends in. */
  datatype Log = Log(worlds: seq<World>, moves: seq<Move>, world: World) {
    ghost predicate Faithful(config: HostConfig) {
      Run(config, worlds, moves) && worlds[|moves|] == world
    }
  }

  lemma RunExtends(config: HostConfig, worlds: seq<World>, moves: seq<Move>, move: Move, next: World)
    requires Run(config, worlds, moves) && Takes(config, move, worlds[|moves|], next)
    ensures Run(config, worlds + [next], moves + [move])
    ensures next.disk.Durable()
  {
    RunKeepsInv(config, worlds, moves, |moves|);
    MoveKeepsInv(config, move, worlds[|moves|], next);
    forall i | 0 <= i < |moves| + 1
      ensures Step(config, worlds + [next], moves + [move], i)
    {
      assert i < |moves| ==> Step(config, worlds, moves, i);
    }
  }

  /** By how many bytes a VM's charge was raised other than by a resize: by changes
      of the device from outside, and by the daemon's own widenings that were not
      restored. `unseen` is the part since the VM was last read. */
  datatype Drift = Drift(outside: nat, unrestored: nat, unseen: nat) {
    ghost function Total(): nat { outside + unrestored }

    ghost function FromOutside(bytes: nat): Drift { Drift(outside + bytes, unrestored, unseen + bytes) }

    ghost function FromWidening(bytes: nat): Drift { Drift(outside, unrestored + bytes, unseen + bytes) }

    /** Later, with neither a widening nor a read in between. */
    ghost predicate Follows(before: Drift) {
      before.outside <= outside && before.unrestored == unrestored && unseen - before.unseen == outside - before.outside
    }

    /** Later, without a read in between. */
    ghost predicate Widens(before: Drift) {
      && before.outside <= outside && before.unrestored <= unrestored
      && unseen - before.unseen == Total() - before.Total()
    }

    /** Later. */
    ghost predicate Since(before: Drift) {
      && before.outside <= outside && before.unrestored <= unrestored
      && unseen - before.unseen <= Total() - before.Total()
    }
  }

  /** How the answer to a resize leaves the control state it was sent under. */
  ghost predicate Answered(before: Control, answer: Answer, after: Control, now: U64)
    requires before.journal.request.Some?
  {
    var request := before.journal.request;
    match answer
    case Done => after == before
    case Rejection => after == Control(false, None, Journal(request, Some(RejectedResult(request.value, now))))
    case _ =>
      && after.latched && after.intent == before.intent && after.journal.request == request
      && after.journal.result.Some? && !after.journal.result.value.Terminal()
  }

  /** What is checked at the effect boundary: the daemon does more than observe, and
      the request is whole blocks and fresh. */
  ghost predicate Acceptable(config: HostConfig, ready: Ready, now: U64) {
    && !config.observeOnly
    && 0 < ready.state.block && ready.request.bytes % ready.state.block == 0
    && ready.request.issued <= now + config.tolerance && now < ready.request.expires
  }

  /** What a ready request finds at its turn: the pool's ceiling, the growth committed
      so far, and the clock, the stop signal and the memory available. */
  datatype Chance = Chance(ceiling: Option<U64>, committed: U64, boundary: Boundary)

  ghost predicate Movable(config: HostConfig, ready: Ready, chance: Chance, bytes: int) {
    MayMove(config, ready.request, ready.state, ready.baseRam, chance.ceiling, chance.boundary.available,
            chance.committed, bytes)
  }

  /** A control state and the commands sent so far. */
  datatype Doing = Doing(control: Control, sent: seq<Sent>)

  /** What one turn does with a ready request. One that is not acceptable is left
      alone; one of which not even a block may move is journalled as such; otherwise,
      unless the daemon is stopping, it is journalled and resized. `share` is what the
      turn adds to the committed growth. */
  ghost predicate Acted(
    config: HostConfig, alive: bool, ready: Ready, chance: Chance, share: int, before: Doing, after: Doing)
  {
    var now := chance.boundary.now;
    if || !Acceptable(config, ready, now)
       || (chance.boundary.stop && Movable(config, ready, chance, ready.state.block)) then
      alive && after == before && share == 0
    else if !Movable(config, ready, chance, ready.state.block) then
      && after.sent == before.sent && share == 0
      && (alive ==>
            after.control == Control(false, None, Journal(Some(ready.request), Some(MemoryResult(
                         ready.request, if ready.request.operation.Add? then PoolEmpty else Rejected, 0, now, true)))))
    else
      alive ==> Resized(config, ready, chance, share, before.sent, after)
  }

  /** One resize was sent, for the most whole blocks that may move; growth is the share,
      and the answer is journalled. */
  ghost predicate Resized(
    config: HostConfig, ready: Ready, chance: Chance, share: int, sentBefore: seq<Sent>, after: Doing)
    requires 0 < ready.state.block
  {
    && |after.sent| == |sentBefore| + 1 && sentBefore == after.sent[..|sentBefore|]
    && var s := after.sent[|sentBefore|];
    && var moved := if ready.request.operation.Add? then s.target - ready.state.current
                    else ready.state.current - s.target;
    && s.command.Resize? && s.disk.journal.request == Some(ready.request)
    && MovesMost(config, ready.request, ready.state, ready.baseRam, chance.ceiling, chance.boundary.available,
                 chance.committed, moved)
    && share == (if ready.request.operation.Add? then moved else 0)
    && after.control.journal.request == Some(ready.request)
    && Answered(s.disk, s.answer, after.control, chance.boundary.now)
  }

  /** How carrying a grant out leaves the control state, the commands sent and the
      growth committed this round. */
  ghost predicate CarriedOut(
    alive: bool, ready: Ready, grant: U64, now: U64, stop: bool, share: int, before: Doing, after: Doing)
  {
    if grant == 0 then
      && after.sent == before.sent && share == 0
      && (alive ==>
            after.control == Control(false, None, Journal(Some(ready.request), Some(MemoryResult(
                         ready.request, if ready.request.operation.Add? then PoolEmpty else Rejected, 0, now, true)))))
    else if stop then
      alive && after == before && share == 0
    else
      && share == (if ready.request.operation.Add? then grant else 0)
      && (alive ==>
            && |after.sent| == |before.sent| + 1 && before.sent == after.sent[..|before.sent|]
            && var s := after.sent[|before.sent|];
            && s.command.Resize? && s.disk.journal.request == Some(ready.request)
            && s.target == GrantTarget(ready.request.operation, ready.state, grant)
            && after.control.journal.request == Some(ready.request) && Answered(s.disk, s.answer, after.control, now))
  }

  /** Carrying out what is granted is what a turn does. */
  lemma CarriedIsActed(
    config: HostConfig, alive: bool, ready: Ready, chance: Chance, share: int, before: Doing, after: Doing)
    requires ready.state.Valid() && Acceptable(config, ready, chance.boundary.now)
    requires
      var grant := Grant(config, ready.request, ready.state, ready.baseRam, chance.ceiling, chance.boundary.available,
                         chance.committed);
      CarriedOut(alive, ready, grant, chance.boundary.now, chance.boundary.stop, share, before, after)
    ensures Acted(config, alive, ready, chance, share, before, after)
  {
    GrantIsLargest(config, ready.request, ready.state, ready.baseRam, chance.ceiling, chance.boundary.available,
                   chance.committed);
  }

  // ----- what phase one makes of a command under way -----

  datatype Due = LeaveAlone | SettleNow | ExtendNow | ExpireNow

  /** The bytes a journalled removal asked for. */
  ghost function AskedBy(journal: Journal): U64 {
    if journal.request.Some? && journal.request.value.operation.Remove? then journal.request.value.bytes else 0
  }

  /** What the controller remembers from poll to poll: the allocation at which a command
      under way was last seen to move, the last extension, and whether a widening is due
      and was tried. */
  datatype Memory = Memory(progress: Option<U64>, extension: Option<Extension>, widenDue: bool, widened: bool)

  /** The allocation is watched for a stall: of a growth that has plugged nothing, and
      of a removal while the guest is not low. */
  ghost predicate Watches(config: HostConfig, control: Control, live: VirtioMemState, was: Memory, poll: Poll) {
    && control.intent.Some? && control.intent.value.target == live.requested
    && !control.latched && !config.observeOnly
    && match control.intent.value.direction {
         case Grow => !was.widened && control.intent.value.priorCurrent == live.current
         case Shrink => poll.envelope.Some? && !poll.envelope.value.low && live.current <= poll.envelope.value.total
         case _ => false
       }
  }

  /** What is due on a device that has not converged. Only the daemon's own command is
      touched: a watched growth that stalls, or a removal while the guest is low, is
      settled; a watched removal that stalls is extended; a settlement past its deadline
      expires. Latched, or observing only, nothing is sent. */
  ghost function DueNow(config: HostConfig, control: Control, live: VirtioMemState, was: Memory, poll: Poll): Due {
    var stalled := Watches(config, control, live, was, poll) && poll.idle && was.progress == Some(live.current);
    if control.intent.None? || control.intent.value.target != live.requested then LeaveAlone
    else if control.intent.value.direction in {SettleGrow, SettleShrink} then
      if poll.expired then ExpireNow else LeaveAlone
    else if control.latched || config.observeOnly then LeaveAlone
    else if control.intent.value.direction.Shrink? && poll.envelope.Some? && poll.envelope.value.low then SettleNow
    else if !stalled then LeaveAlone
    else if control.intent.value.direction.Grow? then SettleNow
    else ExtendNow
  }

  ghost function PlanFor(
    config: HostConfig, control: Control, live: VirtioMemState, was: Memory, poll: Poll): ExtensionPlan
    requires live.Valid() && DueNow(config, control, live, was, poll).ExtendNow?
  {
    PlanExtension(config, live, poll.envelope.value.total - live.current, control.intent.value,
                  AskedBy(control.journal), was.extension)
  }

  /** A planned extension restarts the watch and is remembered; a removal found at its
      floor forgets the last one. */
  ghost function AfterPlan(was: Memory, plan: ExtensionPlan, operation: nat, current: U64, stop: bool): Memory {
    match plan
    case AtGoal => was
    case AtFloor => was.(extension := None)
    case Lower(_, blocks) =>
      if stop then was.(extension := None)
      else was.(progress := None, extension := Some(Extension.Extension(operation, current, blocks)))
  }

  /** What is remembered of a device that has not converged. */
  ghost function MemoryDue(config: HostConfig, control: Control, live: VirtioMemState, was: Memory, poll: Poll): Memory
    requires live.Valid()
  {
    var watched := if Watches(config, control, live, was, poll) then was.(progress := Some(live.current)) else was;
    if DueNow(config, control, live, was, poll).ExtendNow? then
      AfterPlan(watched, PlanFor(config, control, live, was, poll), control.intent.value.operation, live.current,
                poll.stop)
    else watched
  }

  /** One more command was sent: a retarget to `target`. */
  ghost predicate Retargeted(before: Doing, target: int, after: Doing) {
    && |after.sent| == |before.sent| + 1 && before.sent == after.sent[..|before.sent|]
    && after.sent[|before.sent|].command.Retarget? && after.sent[|before.sent|].target == target
  }

  /** The command under way was settled at `current`, its starting allocation kept. */
  ghost predicate SettledTo(before: Doing, current: U64, after: Doing) {
    && Retargeted(before, current, after) && before.control.intent.Some? && after.control.intent.Some?
    && var was, intent := before.control.intent.value, after.control.intent.value;
    && intent.target == current && intent.priorRequested == was.target && intent.priorCurrent == was.priorCurrent
    && intent.direction == (if was.direction.Grow? then SettleGrow else SettleShrink)
    && (after.control.latched <==> !after.sent[|before.sent|].answer.Done?)
  }

  /** The removal under way was lowered to `target`, or kept at `requested` if refused. */
  ghost predicate LoweredTo(before: Doing, target: int, requested: U64, after: Doing) {
    && Retargeted(before, target, after) && before.control.intent.Some? && 0 <= target <= U64_MAX
    && var answer := after.sent[|before.sent|].answer;
    && after.control.intent ==
         Some(before.control.intent.value.(target := if answer.Rejection? then requested else target))
    && (after.control.latched <==> answer.UnknownRan? || answer.UnknownLost?)
  }

  /** A stalled removal was settled at its goal, lowered as planned, or, stuck at its
      floor for long enough, settled too. */
  ghost predicate Extended(
    plan: ExtensionPlan, live: VirtioMemState, poll: Poll, alive: bool, before: Doing, after: Doing)
  {
    if poll.stop || (plan.AtFloor? && !poll.stuck) then alive && after == before
    else alive ==>
      if plan.Lower? then LoweredTo(before, plan.target, live.requested, after)
      else SettledTo(before, live.current, after)
  }

  /** What is due was done. */
  ghost predicate DueIsDone(
    config: HostConfig, live: VirtioMemState, was: Memory, poll: Poll, alive: bool, before: Doing, after: Doing)
    requires live.Valid()
  {
    match DueNow(config, before.control, live, was, poll)
    case LeaveAlone => alive && after == before
    case SettleNow =>
      if poll.stop then alive && after == before else alive ==> SettledTo(before, live.current, after)
    case ExtendNow =>
      Extended(PlanFor(config, before.control, live, was, poll), live, poll, alive, before, after)
    case ExpireNow =>
      alive ==>
        && after.control.latched && after.control.intent == before.control.intent && after.sent == before.sent
        && (before.control.latched ==> after.control == before.control)
  }

  /** A removal under way was settled if the guest is low, and extended once it stalls. */
  ghost predicate ShrinkWatched(
    config: HostConfig, live: VirtioMemState, was: Memory, now: Memory, poll: Poll, alive: bool,
    before: Doing, after: Doing)
    requires live.Valid() && before.control.intent.Some? && poll.envelope.Some?
  {
    var guest, intent := poll.envelope.value, before.control.intent.value;
    var watched := was.(progress := Some(live.current));
    if guest.low then
      && now == was
      && if poll.stop then alive && after == before else alive ==> SettledTo(before, live.current, after)
    else if guest.total < live.current then
      alive && after == before && now == was
    else if poll.idle && was.progress == Some(live.current) then
      var plan := PlanExtension(config, live, guest.total - live.current, intent, AskedBy(before.control.journal),
                                was.extension);
      && Extended(plan, live, poll, alive, before, after)
      && now == AfterPlan(watched, plan, intent.operation, live.current, poll.stop)
    else
      alive && after == before && now == watched
  }

  lemma WatchedShrinkIsDone(
    config: HostConfig, live: VirtioMemState, was: Memory, now: Memory, poll: Poll, alive: bool,
    before: Doing, after: Doing)
    requires live.Valid() && before.control.intent.Some? && before.control.intent.value.target == live.requested
    requires before.control.intent.value.direction.Shrink? && !before.control.latched && !config.observeOnly
    requires poll.envelope.Some? && ShrinkWatched(config, live, was, now, poll, alive, before, after)
    ensures DueIsDone(config, live, was, poll, alive, before, after)
    ensures now == MemoryDue(config, before.control, live, was, poll)
    ensures !DueNow(config, before.control, live, was, poll).ExpireNow?
  {
  }

  /** A widening is due: it was before, or a growth has settled that plugged nothing
      before the one widening. */
  ghost predicate WideningDue(control: Control, live: VirtioMemState, was: Memory) {
    || was.widenDue
    || (&& !was.widened && control.intent.Some? && control.intent.value.direction.SettleGrow?
        && live.requested == live.current == control.intent.value.target && control.journal.request.Some?
        && var request := control.journal.request.value;
        || request.bytes == 0
        || (if request.operation.Add? then live.current <= control.intent.value.priorCurrent
            else control.intent.value.priorCurrent <= live.current))
  }

  /** Due on a converged device, and allowed, one widening is sent; an unknown answer
      stops the VM. Otherwise nothing is sent. */
  ghost predicate WideningTried(
    config: HostConfig, due: bool, poll: Poll, r: Observation, before: Doing, after: Doing)
  {
    if due && !before.control.latched && !config.observeOnly && !poll.stop then
      && |after.sent| == |before.sent| + 1 && before.sent == after.sent[..|before.sent|]
      && after.sent[|before.sent|].command.Widen?
      && (r.Held? || r.ToAct? <==> after.sent[|before.sent|].answer in {Done, Rejection})
    else
      after.sent == before.sent && (r.Held? || r.ToAct?)
  }

  /** What is remembered of a converged device; an empty one may be widened again. */
  ghost function MemoryAtRest(
    config: HostConfig, due: bool, latched: bool, live: VirtioMemState, was: Memory, poll: Poll): Memory
  {
    var tried := due && !latched && !config.observeOnly && !poll.stop;
    Memory(None, was.extension, false, tried || (was.widened && live.current != 0))
  }

  /** What phase one does with an intent on a device read as `live`: converged to it, it
      is resolved by its movement; contradicted, it is latched; still pending, what is
      due is done. Without one, the control state stays. */
  ghost predicate IntentHandled(
    config: HostConfig, live: VirtioMemState, was: Memory, poll: Poll, alive: bool, r: Observation,
    before: Doing, after: Doing)
    requires live.Valid()
  {
    match before.control.intent
    case None =>
      if live.Converged() then
        && WideningTried(config, was.widenDue, poll, r, before, after)
        && (r.Held? || r.ToAct? ==> after.control == before.control)
      else
        alive && !r.Stopping? && after == before
    case Some(intent) =>
      if live.requested != intent.target then
        && after.sent == before.sent && !r.Stopping?
        && (alive ==> after.control.latched && after.control.intent == before.control.intent)
      else if live.current == intent.target then
        r.Failed? ||
        (&& WideningTried(config, WideningDue(before.control, live, was), poll, r, before, after)
         && (r.Held? || r.ToAct? ==>
               && before.control.journal.request.Some?
               && Resolved(before.control, live, poll.now) == Some(after.control)))
      else
        && DueIsDone(config, live, was, poll, alive, before, after)
        && (r.Stopping? <==> alive && DueNow(config, before.control, live, was, poll).ExpireNow?)
  }

  /** What the controller then remembers. */
  ghost predicate Remembers(
    config: HostConfig, live: VirtioMemState, was: Memory, poll: Poll, before: Control, now: Memory)
    requires live.Valid()
  {
    if live.Converged() then
      now == MemoryAtRest(config, WideningDue(before, live, was),
                          before.latched || (before.intent.Some? && before.intent.value.target != live.requested),
                          live, was, poll)
    else now == MemoryDue(config, before, live, was, poll)
  }

  /** An intent the device has converged to is resolved, one it contradicts is latched. */
  ghost predicate IntentSorted(live: VirtioMemState, now: U64, alive: bool, before: Doing, after: Doing) {
    match before.control.intent
    case None => alive && after == before
    case Some(intent) =>
      && after.sent == before.sent
      && if live.requested != intent.target then
           alive ==> after.control.latched && after.control.intent == before.control.intent
         else if live.current == intent.target then
           alive ==>
             && before.control.journal.request.Some? && Resolved(before.control, live, now) == Some(after.control)
         else
           alive && after == before
  }

  /** Sorting the intent out, and then doing what is due, handles it. */
  lemma PendingIsHandled(
    config: HostConfig, live: VirtioMemState, was: Memory, poll: Poll, alive: bool, r: Observation,
    before: Doing, mid: Doing, after: Doing)
    requires live.Valid() && !live.Converged() && IntentSorted(live, poll.now, true, before, mid)
    requires DueIsDone(config, live, was, poll, alive, mid, after)
    requires r.Stopping? <==> alive && DueNow(config, mid.control, live, was, poll).ExpireNow?
    ensures IntentHandled(config, live, was, poll, alive, r, before, after)
    ensures MemoryDue(config, mid.control, live, was, poll) == MemoryDue(config, before.control, live, was, poll)
  {
  }

  lemma ConvergedIsHandled(
    config: HostConfig, live: VirtioMemState, was: Memory, poll: Poll, alive: bool, r: Observation,
    before: Doing, mid: Doing, after: Doing)
    requires live.Valid() && live.Converged() && IntentSorted(live, poll.now, true, before, mid)
    requires WideningTried(config, WideningDue(before.control, live, was), poll, r, mid, after)
    requires r.Held? || r.ToAct? ==> after.control == mid.control
    ensures IntentHandled(config, live, was, poll, alive, r, before, after)
  {
  }

  lemma UnsortedIsHandled(
    config: HostConfig, live: VirtioMemState, was: Memory, poll: Poll, before: Doing, after: Doing)
    requires live.Valid() && IntentSorted(live, poll.now, false, before, after)
    ensures IntentHandled(config, live, was, poll, false, Failed, before, after)
  {
  }

  // ----- what a round sees of a VM -----

  /** What a round compares a VM with: its charge on record, what the pool must count,
      all growth sent so far, the growth outstanding, its control state and commands,
      what its controller remembers, whether it has stopped, and its device as last read and as it is. */
  datatype Snapshot = Snapshot(
    charge: Option<Charge>,
    drift: Drift,
    ledger: nat,
    growth: nat,
    owed: Option<U64>,
    control: Control,
    sent: seq<Sent>,
    memory: Memory,
    stopped: bool,
    seen: Option<VirtioMemState>,
    device: VirtioMemState
  ) {
    /** The growth still on its way from before, none having been sent since. */
    ghost function StillOwed(before: Snapshot): nat {
      if growth == before.growth then Owing(owed) else 0
    }

    /** A share of what the round committed pays for all growth sent since, and for
        all that is then owed on top of what was. */
    ghost predicate Spent(share: int, before: Snapshot) {
      && 0 <= growth - before.growth <= share
      && growth - before.growth + StillOwed(before) <= Owing(before.owed) + share
    }

    /** Holding no more than before and what was raised since, and sent no growth. */
    ghost predicate NoMoreThan(before: Snapshot) {
      && drift.Since(before.drift) && growth == before.growth && before.sent <= sent
      && ledger <= before.ledger + drift.Total() - before.drift.Total()
    }

    /** The charge on record misses part of what the open intent asks for. */
    ghost predicate Uncounted() { charge.Some? && charge.value.bytes < control.IntentTarget() }

    ghost function Now(): Doing { Doing(control, sent) }

    /** As a new daemon finds it. */
    ghost predicate StartedOver(before: Snapshot) {
      && charge.None? && drift == before.drift.(unseen := 0) && growth == before.growth && ledger <= before.ledger
    }
  }

  /** Unlatched, the guest offers a request that the journal can newly admit, now. */
  ghost predicate WillingWith(config: HostConfig, control: Control, seen: Option<VirtioMemState>, poll: Poll) {
    && !control.latched && seen.Some? && poll.envelope.Some? && seen.value.current <= poll.envelope.value.total
    && poll.envelope.value.request.Some?
    && var request := poll.envelope.value.request.value;
    && Admissible(control.journal, request, config.vm, config.service)
    && request.issued <= poll.now + config.tolerance && poll.now < request.expires
  }

  /** What phase one made of `read`, the live state if it could be read. A stopped VM is
      only watched; an unreadable one sends nothing, and latches if it has an intent;
      otherwise its intent is handled. The request the guest offers is ready exactly if the
      device has converged and the request is to be admitted. The VM is watched blindly
      only if it cannot be read, or is not valid, with an uncounted intent. */
  ghost predicate Heard(
    config: HostConfig, r: Observation, read: Option<VirtioMemState>, blind: bool, poll: Poll,
    before: Snapshot, after: Snapshot)
  {
    && (r.ToAct? <==>
          && !after.stopped && read.Some? && read.value.Converged()
          && WillingWith(config, after.control, read, poll))
    && (r.ToAct? ==>
          && after.seen == read == Some(r.ready.state) && poll.envelope.Some?
          && poll.envelope.value.request == Some(r.ready.request)
          && r.ready.baseRam + r.ready.state.current == poll.envelope.value.total)
    && (blind ==> (!poll.readable || !after.device.Valid()) && (before.Uncounted() || after.Uncounted()))
    && ReadHandled(config, r, read, poll, before, after)
  }

  ghost predicate ReadHandled(
    config: HostConfig, r: Observation, read: Option<VirtioMemState>, poll: Poll, before: Snapshot, after: Snapshot)
  {
    if before.stopped then
      after.stopped && after.Now() == before.Now() && after.memory == before.memory
    else if read.None? then
      && !after.stopped && (!poll.readable || !after.device.Valid()) && after.sent == before.sent
      && after.control.latched == (before.control.latched || before.control.intent.Some?)
    else
      && poll.readable && read.value.Valid()
      && IntentHandled(config, read.value, before.memory, poll, true, if after.stopped then Stopping else r,
                       before.Now(), after.Now())
      && Remembers(config, read.value, before.memory, poll, before.control, after.memory)
  }

  /** Handling the intent found that the VM must stop. */
  ghost predicate FoundToStop(
    config: HostConfig, read: Option<VirtioMemState>, poll: Poll, before: Snapshot, mid: Snapshot)
  {
    && !before.stopped && read.Some? && read.value.Valid() && poll.readable
    && IntentHandled(config, read.value, before.memory, poll, true, Stopping, before.Now(), mid.Now())
    && Remembers(config, read.value, before.memory, poll, before.control, mid.memory)
  }

  lemma StoppedIsHeard(
    config: HostConfig, r: Observation, read: Option<VirtioMemState>, blind: bool, poll: Poll,
    before: Snapshot, mid: Snapshot, after: Snapshot)
    requires r.Held? && after.stopped && after.Now() == mid.Now() && after.memory == mid.memory
    requires FoundToStop(config, read, poll, before, mid)
    requires blind ==> (!poll.readable || !after.device.Valid()) && after.Uncounted()
    ensures Heard(config, r, read, blind, poll, before, after)
  {
  }

  class VmController {
    const config: HostConfig
    var control: Control
    var pendingProgress: Option<U64>
    var extension: Option<Extension>
    var widenDue: bool
    var widened: bool
    var operationCounter: nat
    var lastCharge: Option<Charge>
    var outstandingGrowth: Option<U64>
    var stopped: bool

    /** The daemon is running. */
    var alive: bool
    /** The live state this poll works with. */
    var seen: Option<VirtioMemState>
    var disk: Control
    var device: VirtioMemState

    ghost var phase: Phase
    ghost var log: Log
    ghost var drift: Drift

    ghost function SentSoFar(): seq<Sent>
      reads this
    {
      log.world.sent
    }

    /** All growth this VM was ever sent, in this or an earlier daemon. */
    ghost function GrowthSoFar(): nat
      reads this
    {
      TotalGrowth(SentSoFar())
    }

    /** The record is a run and ends in the object's present state. */
    ghost predicate Recorded()
      reads this
    {
      && log.Faithful(config)
      && disk.Durable()
      && log.world.disk == disk
      && log.world.device == device
      && log.world.daemon == (if alive then Some(Daemon(disk, seen, phase)) else None)
    }

    /** Between effects, memory and checkpoint agree. */
    ghost predicate Valid()
      reads this
    {
      Recorded() && (alive ==> control == disk)
    }

    ghost predicate Quiet()
      reads this
    {
      Valid() && alive && phase.Idle?
    }

    ghost function TrueCharge(): U64
      reads this
    {
      ChargeOf(disk, device)
    }

    /** The last thing that happened was a save that failed. */
    ghost predicate SaveFailed()
      reads this
    {
      && log.moves != [] && log.moves[|log.moves| - 1].Persist? && !log.moves[|log.moves| - 1].landing.Landed?
    }

    /** Why a daemon ends: a save failed, or its clock is behind the journal's. */
    ghost predicate Died(now: U64)
      reads this
    {
      && !alive
      && (|| SaveFailed() || now == 0
          || (disk.journal.result.Some? && now < disk.journal.result.value.observed))
    }

    // ----- effects -----

    ghost method Advance(move: Move, next: World)
      requires log.Faithful(config) && Takes(config, move, log.world, next)
      modifies this`log
      ensures log.Faithful(config) && log.world == next && next.disk.Durable()
      ensures log.moves == old(log).moves + [move]
    {
      RunExtends(config, log.worlds, log.moves, move, next);
      log := Log(log.worlds + [next], log.moves + [move], next);
    }

    /** Start from an empty checkpoint, or none. */
    constructor (config: HostConfig, device: VirtioMemState)
      ensures Quiet() && this.config == config && this.device == device && disk == FRESH && seen.None?
      ensures Remembered() == Memory(None, None, false, false)
      ensures lastCharge.None? && outstandingGrowth.None? && !stopped && drift == Drift(0, 0, 0)
    {
      this.config := config;
      control, disk := FRESH, FRESH;
      pendingProgress, extension := None, None;
      widenDue, widened := false, false;
      operationCounter := 0;
      lastCharge, outstandingGrowth := None, None;
      stopped, alive := false, true;
      seen := None;
      this.device := device;
      phase, drift := Idle, Drift(0, 0, 0);
      var first := World.World(FRESH, None, device, [], [], map[], []);
      log := Log([first], [], first);
      new;
      Advance(Move.Restart, first.(daemon := Some(Daemon(FRESH, None, Idle))));
    }

    /** Load the checkpoint after a crash. Nothing process-local survives. */
    method Restart()
      requires Valid() && !alive
      modifies this
      ensures Quiet() && control == disk == old(disk) && device == old(device) && seen.None?
      ensures Remembered() == Memory(None, None, false, false) && operationCounter == 0
      ensures lastCharge.None? && outstandingGrowth.None? && !stopped
      ensures SentSoFar() == old(SentSoFar()) && old(log).moves <= log.moves && drift == old(drift).(unseen := 0)
    {
      ForgetProgress();
      control := disk;
      lastCharge, outstandingGrowth := None, None;
      stopped, alive := false, true;
      seen, phase, drift := None, Idle, drift.(unseen := 0);
      Advance(Move.Restart, log.world.(daemon := Some(Daemon(disk, None, Idle))));
    }

    /** Die, if not dead already, and start over from the checkpoint. */
    method StartOver()
      requires Valid()
      modifies this
      ensures Quiet() && Covered() && Snap().StartedOver(old(Snap()))
    {
      if alive {
        End();
      }
      Restart();
    }

    method ForgetProgress()
      modifies this`pendingProgress, this`extension, this`widenDue, this`widened, this`operationCounter
      ensures pendingProgress.None? && extension.None? && !widenDue && !widened && operationCounter == 0
    {
      pendingProgress, extension := None, None;
      widenDue, widened := false, false;
      operationCounter := 0;
    }

    /** The guest, an operator or a reset may change the device at any time. */
    method Interfere()
      requires Recorded()
      modifies this`device, this`log, this`drift
      ensures Recorded() && SentSoFar() == old(SentSoFar()) && old(log).moves <= log.moves
      ensures drift == old(drift).FromOutside(SatSub(DeviceCharge(device), old(DeviceCharge(device))))
    {
      device := *;
      drift := drift.FromOutside(SatSub(DeviceCharge(device), old(DeviceCharge(device))));
      Advance(Move.Interfere(device), log.world.(device := device));
    }

    /** An error that is passed up ends the process. */
    method End()
      requires Recorded() && alive
      modifies this`alive, this`log
      ensures Valid() && !alive && SentSoFar() == old(SentSoFar()) && old(log).moves <= log.moves
    {
      alive := false;
      Advance(Crash, log.world.(daemon := None));
    }

    /** The new file is in place. A failure to flush it ends the daemon all the same. */
    method Land(ghost change: Change, flushed: bool)
      requires Recorded() && alive
      requires After(config, Daemon(disk, seen, phase), change) == Some(control)
      modifies this`disk, this`alive, this`phase, this`log
      ensures flushed || SaveFailed()
      ensures Valid() && flushed == alive && SentSoFar() == old(SentSoFar()) && old(log).moves <= log.moves
      ensures disk == control && (flushed ==> phase == PhaseAfter(change))
    {
      ghost var saved := Saved(config, log.world, change);
      disk, phase, alive := control, PhaseAfter(change), flushed;
      Advance(Persist(change, if flushed then Landed else LandedThenFailed),
              if flushed then saved else saved.(daemon := None));
    }

    /** Write the checkpoint and flush it. The new file may be in place even
        when the save fails; a failure ends the daemon. */
    method Save(ghost change: Change) returns (ok: bool)
      requires Recorded() && alive
      requires After(config, Daemon(disk, seen, phase), change) == Some(control)
      modifies this`disk, this`alive, this`phase, this`log
      ensures ok || SaveFailed()
      ensures Valid() && ok == alive && SentSoFar() == old(SentSoFar()) && old(log).moves <= log.moves
      ensures ok ==> disk == control && phase == PhaseAfter(change)
      ensures !ok ==> disk == old(disk) || disk == control
    {
      var landing: Landing := *;
      ok := landing.Landed?;
      if landing.Lost? {
        alive := false;
        Advance(Persist(change, Lost), log.world.(daemon := None));
      } else {
        Land(change, ok);
      }
    }

    /** Send a resize or a retarget of what was seen. The sink reads the device
        once more and rejects the command if it changed, if its own checks fail
        or if shutdown was requested. */
    method SendCommand(command: Command, target: U64) returns (answer: Answer, ghost s: Sent)
      requires Valid() && alive && !command.Widen? && phase == Armed(command) && seen.Some?
      requires target == disk.IntentTarget()
      modifies this`device, this`phase, this`log, this`drift
      ensures Valid() && alive && old(log).moves <= log.moves
      ensures phase == (if answer.Rejection? then Declined(command) else Idle)
      ensures SentSoFar() == old(SentSoFar()) + [s]
      ensures
        && s.command == command && s.target == target && s.answer == answer && s.disk == disk
        && (!answer.Rejection? ==> s.device == seen.value)
        && device == (if answer.Ran() then s.device.(requested := target) else s.device)
      ensures drift.Follows(old(drift))
      ensures !answer.Ran() ==> DeviceCharge(device) <= old(DeviceCharge(device)) + drift.unseen - old(drift).unseen
      ensures answer.Ran() ==>
              DeviceCharge(device) <= Max(old(DeviceCharge(device)), target)
              + drift.unseen - old(drift).unseen
    {
      Interfere();
      answer := *;
      if !SinkAccepts(command, seen.value, device, target) {
        answer := Rejection;
      }
      ghost var w := log.world;
      phase := if answer.Rejection? then Declined(command) else Idle;
      if answer.Ran() {
        device := device.(requested := target);
      }
      s := Sent.Sent(command, target, answer, w.disk, w.device);
      Advance(Send(command, answer),
        w.(daemon := Some(Daemon(disk, seen, phase)), device := device, sent := w.sent + [s]));
    }

    /** Write ahead: the intent is saved before its command is sent. */
    method SaveAndSend(ghost change: Change, command: Command, target: U64)
      returns (ok: bool, answer: Answer, ghost s: Sent)
      requires Recorded() && alive && seen.Some? && !command.Widen?
      requires After(config, Daemon(disk, seen, phase), change) == Some(control)
      requires PhaseAfter(change) == Armed(command) && target == control.IntentTarget()
      modifies this`disk, this`alive, this`device, this`phase, this`log, this`drift
      ensures ok || SaveFailed()
      ensures Valid() && ok == alive && old(log).moves <= log.moves
      ensures ok ==>
        && disk == control && phase == (if answer.Rejection? then Declined(command) else Idle)
        && SentSoFar() == old(SentSoFar()) + [s]
        && s.command == command && s.target == target && s.answer == answer && s.disk == control
      ensures !ok ==> disk == old(disk) || disk == control
      ensures drift.Follows(old(drift))
      ensures DeviceCharge(device) <= Max(old(DeviceCharge(device)), target) + drift.unseen - old(drift).unseen
      ensures !(ok && answer.Ran()) ==>
              DeviceCharge(device) <= old(DeviceCharge(device))
              + drift.unseen - old(drift).unseen
      ensures !ok ==> SentSoFar() == old(SentSoFar())
      ensures ok && !answer.Rejection? ==> s.device == seen.value
    {
      answer, s := Rejection, Sent.Sent(command, target, Rejection, control, device);
      ok := Save(change);
      if ok {
        answer, s := SendCommand(command, target);
      }
    }

    /** Ask the sink to widen the usable region. Only an unknown answer may leave
        the whole device requested. */
    method SendWiden() returns (answer: Answer, ghost s: Sent)
      requires Quiet() && !control.latched && seen.Some? && seen.value.Converged()
      modifies this`device, this`log, this`drift
      ensures Quiet() && old(log).moves <= log.moves
      ensures SentSoFar() == old(SentSoFar()) + [s] && s.command.Widen? && s.answer == answer
      ensures drift.Widens(old(drift))
      ensures drift.unrestored == old(drift).unrestored +
                (if answer.UnknownRan? then SatSub(s.device.MaximumTarget(), ChargeOf(disk, s.device)) else 0)
      ensures TrueCharge() <= old(TrueCharge()) + drift.unseen - old(drift).unseen
    {
      Interfere();
      answer := *;
      ghost var w := log.world;
      var target := device.MaximumTarget();
      if !SinkAccepts(Command.Widen, seen.value, device, target) {
        answer := Rejection;
      }
      if answer.UnknownRan? {
        drift := drift.FromWidening(SatSub(target, TrueCharge()));
        device := device.(requested := target);
      }
      s := Sent.Sent(Command.Widen, target, answer, w.disk, w.device);
      Advance(Send(Command.Widen, answer), w.(device := device, sent := w.sent + [s]));
    }

    // ----- the control loop -----

    /** Latch durably and give an unresolved request an uncertain result. */
    method LatchActuation(now: U64) returns (ok: bool)
      requires Valid() && alive
      modifies this`control, this`disk, this`alive, this`phase, this`log
      ensures alive || Died(now)
      ensures Valid() && ok == alive && SentSoFar() == old(SentSoFar()) && old(log).moves <= log.moves
      ensures ok ==> control.latched && control.intent == old(control.intent)
      ensures ok ==> control.journal.request == old(control.journal.request)
      ensures ok ==>
        control.journal.result ==
          if old(control.latched) || old(control.journal).request.None? || old(control.journal).result.Some?
          then old(control.journal).result
          else Some(MemoryResult(old(control.journal).request.value, Uncertain, 0, now, true))
      ensures ok && old(control.latched) ==> control == old(control) && phase == old(phase)
      ensures ok && !old(control.latched) ==> phase.Idle?
      ensures disk.intent == old(disk.intent)
    {
      if control.latched {
        return true;
      }
      control := control.(latched := true);
      if control.journal.request.Some? && control.journal.result.None? {
        var uncertain := MemoryResult(control.journal.request.value, Uncertain, 0, now, true);
        var recorded := control.journal.Record(uncertain);
        if recorded.None? {
          End();
          return false;
        }
        control := control.(journal := recorded.value);
      }
      ok := Save(Latch(now));
    }

    /** Journal the movement of an intent the device has converged to. A growth
        that settled without plugging anything asks for the one-time widening. */
    method FinishIntent(now: U64) returns (ok: bool)
      requires Quiet() && seen.Some? && CommandOwnership(control.intent, seen.value).OwnedConverged?
      modifies this`control, this`disk, this`alive, this`phase, this`log, this`widenDue
      ensures alive || Died(now)
      ensures Valid() && ok == alive && (ok ==> phase.Idle?)
      ensures SentSoFar() == old(SentSoFar()) && old(log).moves <= log.moves
      ensures ok ==>
        && Resolved(old(control), seen.value, now) == Some(control)
        && control.intent.None? && control.journal.result.Some?
        && (widenDue <==> WideningDue(old(control), seen.value, old(Remembered())))
      ensures disk.IntentTarget() <= old(disk.IntentTarget())
    {
      var live, intent := seen.value, control.intent.value;
      var explained := intent.direction.SettleGrow? || intent.direction.SettleShrink?;
      var result := MovementResult(control.journal.request.value, intent.priorCurrent, live, now, explained);
      var recorded := control.journal.Record(result);
      if recorded.None? {
        End();
        return false;
      }
      widenDue := widenDue || (intent.direction.SettleGrow? && result.actual == 0 && !widened);
      control := Control(control.latched, None, recorded.value);
      ok := Save(Resolve(now));
    }

    /** Finish a converged intent; latch on an intent the device never applied or
        contradicts. A converged device is left without an intent or latched. */
    method ResolveIntent(now: U64) returns (ok: bool)
      requires Quiet() && seen.Some?
      modifies this`control, this`disk, this`alive, this`phase, this`log, this`widenDue
      ensures alive || Died(now)
      ensures Valid() && ok == alive && (ok ==> phase.Idle?)
      ensures SentSoFar() == old(SentSoFar()) && old(log).moves <= log.moves
      ensures IntentSorted(seen.value, now, alive, old(Now()), Now())
      ensures ok ==> (widenDue <==> WideningDue(old(control), seen.value, old(Remembered())))
      ensures ok && seen.value.Converged() && control.intent.Some? ==> control.latched
      ensures ok && seen.value.Converged() && !control.latched ==> old(disk.IntentTarget()) <= seen.value.current
      ensures disk.IntentTarget() <= old(disk.IntentTarget()) && TrueCharge() <= old(TrueCharge())
    {
      match CommandOwnership(control.intent, seen.value) {
        case OwnedConverged => ok := FinishIntent(now);
        case RecordedNotApplied => ok := LatchActuation(now);
        case Conflict => ok := LatchActuation(now);
        case _ => ok := true;
      }
    }

    /** Request the resize's current allocation, which completes it. The intent
        keeps the starting allocation of the original command. */
    method SettleShort(now: U64, stop: bool) returns (turn: Turn, ghost s: Sent)
      requires Quiet() && !control.latched && PendingOwned(control, seen, {Grow, Shrink})
      modifies this`control, this`disk, this`alive, this`phase, this`device, this`log,
               this`drift, this`operationCounter
      ensures alive || Died(now)
      ensures Valid() && (alive ==> phase.Idle?) && old(log).moves <= log.moves
      ensures turn == if alive then Wait else Ended
      ensures drift.Follows(old(drift))
      ensures TrueCharge() <= Max(old(TrueCharge()), seen.value.current) + drift.unseen - old(drift).unseen
      ensures stop ==> alive && control == old(control) && SentSoFar() == old(SentSoFar())
      ensures !stop && alive ==>
        && SentSoFar() == old(SentSoFar()) + [s]
        && s.command.Retarget? && s.target == seen.value.current
        && control.intent.Some? && control.intent == s.disk.intent
        && control.intent.value.target == seen.value.current
        && control.intent.value.priorCurrent == old(control.intent).value.priorCurrent
        && control.intent.value.direction ==
             (if old(control.intent).value.direction.Grow? then SettleGrow else SettleShrink)
        && (s.answer.Done? <==> !control.latched)
        && control.intent.value.operation == operationCounter == old(operationCounter) + 1
      ensures !stop && alive ==> SettledTo(old(Now()), seen.value.current, Now())
      ensures SentSoFar() == old(SentSoFar()) || (SentSoFar() == old(SentSoFar()) + [s] && s.command.Retarget?)
    {
      turn, s := Wait, Sent.Sent(Retarget, 0, Rejection, control, device);
      if stop {
        return;
      }
      var ok, answer;
      ok, answer, s := SendSettlement(now);
      if ok && !answer.Done? {
        ok := LatchActuation(now);
      }
      turn := if ok then Wait else Ended;
    }

    /** The settlement's intent becomes durable, and its command is sent. */
    method SendSettlement(now: U64) returns (ok: bool, answer: Answer, ghost s: Sent)
      requires Quiet() && !control.latched && PendingOwned(control, seen, {Grow, Shrink})
      modifies this`control, this`disk, this`alive, this`phase, this`device, this`log,
               this`drift, this`operationCounter
      ensures ok || SaveFailed()
      ensures Valid() && ok == alive && old(log).moves <= log.moves && drift.Follows(old(drift))
      ensures TrueCharge() <= Max(old(TrueCharge()), seen.value.current) + drift.unseen - old(drift).unseen
      ensures ok ==>
        && SentSoFar() == old(SentSoFar()) + [s]
        && s.command.Retarget? && s.target == seen.value.current && s.answer == answer
        && phase == (if answer.Rejection? then Declined(Retarget) else Idle)
        && !control.latched && control.intent.Some? && control.intent == s.disk.intent
        && control.intent.value.target == seen.value.current
        && control.intent.value.priorCurrent == old(control.intent).value.priorCurrent
        && control.intent.value.priorRequested == old(control.intent).value.target
        && control.intent.value.operation == operationCounter == old(operationCounter) + 1
        && control.intent.value.direction ==
             (if old(control.intent).value.direction.Grow? then SettleGrow else SettleShrink)
      ensures !ok ==> SentSoFar() == old(SentSoFar())
    {
      var live, operation := seen.value, operationCounter + 1;
      var direction := if control.intent.value.direction.Grow? then SettleGrow else SettleShrink;
      operationCounter, control := operation, control.(intent := Some(
        Intent(operation, now, direction, live.requested, control.intent.value.priorCurrent, live.current)));
      ok, answer, s := SaveAndSend(Settle(operation, now), Retarget, live.current);
    }

    /** The bytes the admitted removal asked for. */
    function AskedToRemove(): U64
      reads this
    {
      if control.journal.request.Some? && control.journal.request.value.operation.Remove?
      then control.journal.request.value.bytes else 0
    }

    /** Lower a stalled shrink's target as planned. The new target is durable
        before the command; a rejected command puts the previous one back. */
    method LowerTarget(now: U64, target: U64, floor: U64) returns (turn: Turn, ghost s: Sent)
      requires Quiet() && !control.latched && PendingOwned(control, seen, {Shrink})
      requires floor <= target < seen.value.requested && seen.value.ValidTarget(target)
      modifies this`control, this`disk, this`alive, this`phase, this`device, this`log, this`drift
      ensures alive || Died(now)
      ensures Valid() && (alive ==> phase.Idle?) && old(log).moves <= log.moves
      ensures turn == if alive then Wait else Ended
      ensures drift.Follows(old(drift))
      ensures TrueCharge() <= Max(old(TrueCharge()), seen.value.requested) + drift.unseen - old(drift).unseen
      ensures alive ==>
        && SentSoFar() == old(SentSoFar()) + [s]
        && s.command.Retarget? && s.target == target
        && control.intent == Some(old(control.intent).value.(
             target := if s.answer.Rejection? then seen.value.requested else target))
        && (control.latched <==> s.answer.UnknownRan? || s.answer.UnknownLost?)
      ensures alive ==> LoweredTo(old(Now()), target, seen.value.requested, Now())
      ensures SentSoFar() == old(SentSoFar()) || (SentSoFar() == old(SentSoFar()) + [s] && s.command.Retarget?)
    {
      var ok, answer;
      ok, answer, s := SendLowered(target, floor);
      if !ok {
        turn := Ended;
        return;
      }
      if answer.Rejection? {
        control := control.(intent := Some(control.intent.value.(target := seen.value.requested)));
        ok := Save(Unextend);
      } else if !answer.Done? {
        ok := LatchActuation(now);
      }
      turn := if ok then Wait else Ended;
    }

    /** The lowered target becomes durable, and its command is sent. */
    method SendLowered(target: U64, floor: U64) returns (ok: bool, answer: Answer, ghost s: Sent)
      requires Quiet() && !control.latched && PendingOwned(control, seen, {Shrink})
      requires floor <= target < seen.value.requested && seen.value.ValidTarget(target)
      modifies this`control, this`disk, this`alive, this`phase, this`device, this`log, this`drift
      ensures ok || SaveFailed()
      ensures Valid() && ok == alive && old(log).moves <= log.moves && drift.Follows(old(drift))
      ensures TrueCharge() <= Max(old(TrueCharge()), seen.value.requested) + drift.unseen - old(drift).unseen
      ensures DeviceCharge(device) <= Max(old(DeviceCharge(device)), seen.value.requested)
              + drift.unseen - old(drift).unseen
      ensures ok ==>
        && SentSoFar() == old(SentSoFar()) + [s]
        && s.command.Retarget? && s.target == target && s.answer == answer
        && phase == (if answer.Rejection? then Declined(Retarget) else Idle)
        && control == old(control).(intent := Some(old(control.intent).value.(target := target)))
      ensures !ok ==> SentSoFar() == old(SentSoFar())
    {
      control := control.(intent := Some(control.intent.value.(target := target)));
      ok, answer, s := SaveAndSend(Extend(target, floor), Retarget, target);
    }

    /** Follow the plan for a stalled removal: settle at the goal, lower the target
        by the planned step, or release a removal stuck at its floor. */
    method FollowPlan(plan: ExtensionPlan, floor: U64, poll: Poll) returns (turn: Turn, ghost s: Sent)
      requires Quiet() && !control.latched && PendingOwned(control, seen, {Shrink}) && seen.value.Valid()
      requires plan.Lower? ==> floor <= plan.target < seen.value.requested && seen.value.ValidTarget(plan.target)
      modifies this`control, this`disk, this`alive, this`phase, this`device, this`log,
               this`drift, this`operationCounter, this`extension, this`pendingProgress
      ensures alive || Died(poll.now)
      ensures Valid() && (alive ==> phase.Idle?) && old(log).moves <= log.moves
      ensures turn == if alive then Wait else Ended
      ensures drift.Follows(old(drift))
      ensures TrueCharge() <= Max(old(TrueCharge()), Max(seen.value.requested, seen.value.current))
              + drift.unseen - old(drift).unseen
      ensures Extended(plan, seen.value, poll, alive, old(Now()), Now())
      ensures Remembered() == AfterPlan(old(Remembered()), plan, old(control.intent).value.operation,
                                        seen.value.current, poll.stop)
      ensures SentSoFar() == old(SentSoFar()) || (SentSoFar() == old(SentSoFar()) + [s] && s.command.Retarget?)
    {
      turn, s := Wait, Sent.Sent(Retarget, 0, Rejection, control, device);
      match plan
      case AtGoal => turn, s := SettleShort(poll.now, poll.stop);
      case AtFloor =>
        extension := None;
        if poll.stuck {
          turn, s := SettleShort(poll.now, poll.stop);
        }
      case Lower(target, blocks) =>
        extension := None;
        if poll.stop {
          return;
        }
        turn, s := LowerNext(poll.now, target, blocks, floor);
    }

    /** The planned step restarts the watch and is remembered. */
    method LowerNext(now: U64, target: U64, blocks: nat, floor: U64) returns (turn: Turn, ghost s: Sent)
      requires Quiet() && !control.latched && PendingOwned(control, seen, {Shrink})
      requires floor <= target < seen.value.requested && seen.value.ValidTarget(target)
      modifies this`control, this`disk, this`alive, this`phase, this`device, this`log, this`drift,
               this`extension, this`pendingProgress
      ensures alive || Died(now)
      ensures Valid() && (alive ==> phase.Idle?) && old(log).moves <= log.moves
      ensures turn == if alive then Wait else Ended
      ensures drift.Follows(old(drift))
      ensures TrueCharge() <= Max(old(TrueCharge()), seen.value.requested) + drift.unseen - old(drift).unseen
      ensures alive ==> LoweredTo(old(Now()), target, seen.value.requested, Now())
      ensures Remembered() == old(Remembered()).(
        progress := None,
        extension := Some(Extension.Extension(old(control.intent).value.operation, seen.value.current, blocks)))
      ensures SentSoFar() == old(SentSoFar()) || (SentSoFar() == old(SentSoFar()) + [s] && s.command.Retarget?)
    {
      pendingProgress := None;
      extension := Some(Extension.Extension(control.intent.value.operation, seen.value.current, blocks));
      turn, s := LowerTarget(now, target, floor);
    }

    method ExtendShrink(baseRam: U64, poll: Poll) returns (turn: Turn, ghost s: Sent)
      requires Quiet() && !control.latched && PendingOwned(control, seen, {Shrink}) && seen.value.Valid()
      modifies this`control, this`disk, this`alive, this`phase, this`device, this`log,
               this`drift, this`operationCounter, this`extension, this`pendingProgress
      ensures alive || Died(poll.now)
      ensures Valid() && (alive ==> phase.Idle?) && old(log).moves <= log.moves
      ensures turn == if alive then Wait else Ended
      ensures drift.Follows(old(drift))
      ensures TrueCharge() <= Max(old(TrueCharge()), Max(seen.value.requested, seen.value.current))
              + drift.unseen - old(drift).unseen
      ensures
        var plan := PlanExtension(config, seen.value, baseRam, old(control.intent).value, AskedBy(old(control.journal)),
                                  old(extension));
        && Extended(plan, seen.value, poll, alive, old(Now()), Now())
        && Remembered() == AfterPlan(old(Remembered()), plan, old(control.intent).value.operation, seen.value.current,
                                     poll.stop)
      ensures SentSoFar() == old(SentSoFar()) || (SentSoFar() == old(SentSoFar()) + [s] && s.command.Retarget?)
    {
      var plan := PlanExtension(config, seen.value, baseRam, control.intent.value, AskedToRemove(), extension);
      if plan.Lower? {
        ExtensionIsBounded(config, seen.value, baseRam, control.intent.value, AskedToRemove(), extension);
      }
      turn, s := FollowPlan(plan, ShrinkFloor(config, baseRam, seen.value.block), poll);
    }

    /** The owned resize has not moved for one poll. */
    method CommandStalled(idle: bool) returns (stalled: bool)
      requires seen.Some?
      modifies this`pendingProgress
      ensures stalled <==> idle && old(pendingProgress) == Some(seen.value.current)
      ensures pendingProgress == Some(seen.value.current)
    {
      stalled := idle && pendingProgress == Some(seen.value.current);
      pendingProgress := Some(seen.value.current);
    }

    /** A device that has not converged. A foreign divergence is left alone. An
        owned resize holds its target, except that a growth that plugged nothing
        settles, a removal settles when the guest runs low or is extended when it
        stalls, and a settlement past its deadline latches and stops the VM. */
    method ObservePending(poll: Poll) returns (turn: Turn, ghost s: Sent)
      requires Quiet() && seen.Some? && seen.value.Valid() && !seen.value.Converged()
      modifies this`control, this`disk, this`alive, this`phase, this`device, this`log,
               this`drift, this`operationCounter, this`extension, this`pendingProgress
      ensures alive || Died(poll.now)
      ensures Valid() && (alive ==> phase.Idle?) && old(log).moves <= log.moves
      ensures turn.Ended? <==> !alive
      ensures drift.Follows(old(drift))
      ensures TrueCharge() <= Max(old(TrueCharge()), Max(seen.value.requested, seen.value.current))
              + drift.unseen - old(drift).unseen
      ensures DueIsDone(config, seen.value, old(Remembered()), poll, alive, old(Now()), Now())
      ensures alive ==> Remembered() == MemoryDue(config, old(control), seen.value, old(Remembered()), poll)
      ensures turn.Stop? <==> alive && DueNow(config, old(control), seen.value, old(Remembered()), poll).ExpireNow?
      ensures SentSoFar() == old(SentSoFar()) || (SentSoFar() == old(SentSoFar()) + [s] && s.command.Retarget?)
    {
      turn, s := Wait, Sent.Sent(Retarget, 0, Rejection, control, device);
      if control.intent.None? || control.intent.value.target != seen.value.requested {
        return;
      }
      match control.intent.value.direction {
        case Grow => turn, s := PendingGrow(poll);
        case Shrink => turn, s := PendingShrink(poll);
        case _ =>
          if poll.expired {
            turn := StopSettling(poll.now);
          }
      }
    }

    method PendingGrow(poll: Poll) returns (turn: Turn, ghost s: Sent)
      requires Quiet() && seen.Some? && seen.value.Valid() && !seen.value.Converged()
      requires control.intent.Some? && control.intent.value.target == seen.value.requested
      requires control.intent.value.direction.Grow?
      modifies this`control, this`disk, this`alive, this`phase, this`device, this`log,
               this`drift, this`operationCounter, this`pendingProgress
      ensures alive || Died(poll.now)
      ensures Valid() && (alive ==> phase.Idle?) && old(log).moves <= log.moves
      ensures turn.Ended? <==> !alive
      ensures drift.Follows(old(drift))
      ensures TrueCharge() <= Max(old(TrueCharge()), Max(seen.value.requested, seen.value.current))
              + drift.unseen - old(drift).unseen
      ensures DueIsDone(config, seen.value, old(Remembered()), poll, alive, old(Now()), Now())
      ensures alive ==> Remembered() == MemoryDue(config, old(control), seen.value, old(Remembered()), poll)
      ensures turn.Stop? <==> alive && DueNow(config, old(control), seen.value, old(Remembered()), poll).ExpireNow?
      ensures SentSoFar() == old(SentSoFar()) || (SentSoFar() == old(SentSoFar()) + [s] && s.command.Retarget?)
    {
      turn, s := Wait, Sent.Sent(Retarget, 0, Rejection, control, device);
      if !control.latched && !config.observeOnly && !widened
         && control.intent.value.priorCurrent == seen.value.current {
        turn, s := ObserveGrow(poll);
      }
    }

    method PendingShrink(poll: Poll) returns (turn: Turn, ghost s: Sent)
      requires Quiet() && seen.Some? && seen.value.Valid() && !seen.value.Converged()
      requires control.intent.Some? && control.intent.value.target == seen.value.requested
      requires control.intent.value.direction.Shrink?
      modifies this`control, this`disk, this`alive, this`phase, this`device, this`log,
               this`drift, this`operationCounter, this`extension, this`pendingProgress
      ensures alive || Died(poll.now)
      ensures Valid() && (alive ==> phase.Idle?) && old(log).moves <= log.moves
      ensures turn.Ended? <==> !alive
      ensures drift.Follows(old(drift))
      ensures TrueCharge() <= Max(old(TrueCharge()), Max(seen.value.requested, seen.value.current))
              + drift.unseen - old(drift).unseen
      ensures DueIsDone(config, seen.value, old(Remembered()), poll, alive, old(Now()), Now())
      ensures alive ==> Remembered() == MemoryDue(config, old(control), seen.value, old(Remembered()), poll)
      ensures turn.Stop? <==> alive && DueNow(config, old(control), seen.value, old(Remembered()), poll).ExpireNow?
      ensures SentSoFar() == old(SentSoFar()) || (SentSoFar() == old(SentSoFar()) + [s] && s.command.Retarget?)
    {
      turn, s := Wait, Sent.Sent(Retarget, 0, Rejection, control, device);
      if !control.latched && !config.observeOnly && poll.envelope.Some? {
        turn, s := ObserveShrink(poll);
        WatchedShrinkIsDone(config, seen.value, old(Remembered()), Remembered(), poll, alive, old(Now()), Now());
      }
    }

    /** A settlement past its deadline is latched, which stops the VM. */
    method StopSettling(now: U64) returns (turn: Turn)
      requires Quiet()
      modifies this`control, this`disk, this`alive, this`phase, this`log
      ensures alive || Died(now)
      ensures Valid() && (alive ==> phase.Idle?) && old(log).moves <= log.moves
      ensures turn == if alive then Stop else Ended
      ensures SentSoFar() == old(SentSoFar()) && TrueCharge() == old(TrueCharge())
      ensures alive ==>
        && control.latched && control.intent == old(control.intent)
        && (old(control.latched) ==> control == old(control))
    {
      var ok := LatchActuation(now);
      turn := if ok then Stop else Ended;
    }

    /** An owned growth that has plugged nothing: settled once it has stalled. */
    method ObserveGrow(poll: Poll) returns (turn: Turn, ghost s: Sent)
      requires Quiet() && !control.latched && PendingOwned(control, seen, {Grow})
      modifies this`control, this`disk, this`alive, this`phase, this`device, this`log,
               this`drift, this`operationCounter, this`pendingProgress
      ensures alive || Died(poll.now)
      ensures Valid() && (alive ==> phase.Idle?) && old(log).moves <= log.moves
      ensures turn == if alive then Wait else Ended
      ensures drift.Follows(old(drift))
      ensures TrueCharge() <= Max(old(TrueCharge()), seen.value.current) + drift.unseen - old(drift).unseen
      ensures SentSoFar() == old(SentSoFar()) || (SentSoFar() == old(SentSoFar()) + [s] && s.command.Retarget?)
      ensures
        if poll.idle && old(pendingProgress) == Some(seen.value.current) && !poll.stop
        then alive ==> SettledTo(old(Now()), seen.value.current, Now())
        else alive && Now() == old(Now())
      ensures Remembered() == old(Remembered()).(progress := Some(seen.value.current))
    {
      turn, s := Wait, Sent.Sent(Retarget, 0, Rejection, control, device);
      var stalled := CommandStalled(poll.idle);
      if stalled {
        turn, s := SettleShort(poll.now, poll.stop);
      }
    }

    /** An owned removal: released when the guest runs low, extended once stalled. */
    method ObserveShrink(poll: Poll) returns (turn: Turn, ghost s: Sent)
      requires Quiet() && !control.latched && PendingOwned(control, seen, {Shrink}) && seen.value.Valid()
      requires poll.envelope.Some? && !config.observeOnly
      modifies this`control, this`disk, this`alive, this`phase, this`device, this`log,
               this`drift, this`operationCounter, this`extension, this`pendingProgress
      ensures alive || Died(poll.now)
      ensures Valid() && (alive ==> phase.Idle?) && old(log).moves <= log.moves
      ensures turn == if alive then Wait else Ended
      ensures drift.Follows(old(drift))
      ensures TrueCharge() <= Max(old(TrueCharge()), Max(seen.value.requested, seen.value.current))
              + drift.unseen - old(drift).unseen
      ensures SentSoFar() == old(SentSoFar()) || (SentSoFar() == old(SentSoFar()) + [s] && s.command.Retarget?)
      ensures ShrinkWatched(config, seen.value, old(Remembered()), Remembered(), poll, alive, old(Now()), Now())
    {
      turn, s := Wait, Sent.Sent(Retarget, 0, Rejection, control, device);
      var guest := poll.envelope.value;
      if guest.low {
        turn, s := SettleShort(poll.now, poll.stop);
      } else if seen.value.current <= guest.total {
        var stalled := CommandStalled(poll.idle);
        if stalled {
          turn, s := ExtendShrink(guest.total - seen.value.current, poll);
        }
      }
    }

    /** Widen the usable region once, so the guest's next plug can land. */
    method WidenUsableRegion(poll: Poll) returns (turn: Turn, ghost s: Sent)
      requires Quiet() && seen.Some? && seen.value.Converged()
      modifies this`control, this`disk, this`alive, this`phase, this`device, this`log,
               this`drift, this`widenDue, this`widened
      ensures alive || Died(poll.now)
      ensures Valid() && (alive ==> phase.Idle?) && old(log).moves <= log.moves && !widenDue
      ensures turn.Ended? <==> !alive
      ensures drift.Widens(old(drift))
      ensures TrueCharge() <= old(TrueCharge()) + drift.unseen - old(drift).unseen
      ensures turn.Wait? ==> control == old(control)
      ensures turn.Stop? ==> control.latched && control.intent == old(control.intent)
      ensures old(control.latched) || config.observeOnly || poll.stop ==>
                turn.Wait? && SentSoFar() == old(SentSoFar()) && widened == old(widened)
      ensures !(old(control.latched) || config.observeOnly || poll.stop) ==>
                && widened && SentSoFar() == old(SentSoFar()) + [s] && s.command.Widen?
                && (turn.Wait? <==> s.answer in {Done, Rejection})
    {
      widenDue, turn := false, Wait;
      s := Sent.Sent(Command.Widen, 0, Rejection, control, device);
      if control.latched || config.observeOnly || poll.stop {
        return;
      }
      widened := true;
      var answer;
      answer, s := SendWiden();
      if answer.UnknownRan? || answer.UnknownLost? {
        var ok := LatchActuation(poll.now);
        turn := if ok then Stop else Ended;
      }
    }

    /** What the pool must count for this VM: what it was last seen to hold, and
        what it holds or is about to. */
    ghost function Ledger(): (ledger: U64)
      reads this
      ensures device.requested <= ledger && device.current <= ledger && disk.IntentTarget() <= ledger
      ensures lastCharge.Some? ==> lastCharge.value.bytes <= ledger
      ensures ledger in {device.requested, device.current, disk.IntentTarget()}
              || (lastCharge.Some? && ledger == lastCharge.value.bytes)
    {
      Max(if lastCharge.Some? then lastCharge.value.bytes else 0, TrueCharge())
    }

    /** Only the open intent's own target can exceed the last charge; a VM never read
        has neither a charge nor a known growth. */
    ghost predicate Covered()
      reads this
    {
      && (lastCharge.Some? ==> TrueCharge() <= Max(lastCharge.value.bytes, disk.IntentTarget()) + drift.unseen)
      && (lastCharge.None? <==> outstandingGrowth.None?)
    }

    /** The charge on record misses part of what the open intent asks for. */
    ghost predicate Uncounted()
      reads this
    {
      lastCharge.Some? && lastCharge.value.bytes < disk.IntentTarget()
    }

    /** The charge on record counts the VM in full exactly if nothing is uncounted. */
    lemma CountedExactly()
      requires Covered() && lastCharge.Some? && drift.unseen == 0
      ensures TrueCharge() <= lastCharge.value.bytes <==> !Uncounted()
    {
    }

    /** The one command-free state in which a request may be executed. */
    ghost predicate ReadyToAct(ready: Ready)
      reads this
    {
      && Quiet() && !control.latched && control.intent.None?
      && seen == Some(ready.state) && ready.state.Valid() && ready.state.Converged()
      && Admissible(control.journal, ready.request, config.vm, config.service)
    }

    /** Read live state and account for it. */
    method ReadLive(readable: bool) returns (read: bool)
      requires Quiet() && Covered()
      modifies this`device, this`seen, this`log, this`drift, this`lastCharge, this`outstandingGrowth
      ensures Quiet() && Covered() && SentSoFar() == old(SentSoFar()) && old(log).moves <= log.moves
      ensures drift.Since(old(drift))
      ensures Ledger() <= old(Ledger()) + drift.Total() - old(drift).Total()
      ensures read ==>
        && drift.unseen == 0 && readable && device.Valid() && seen == Some(device)
        && lastCharge == Some(Charge(TrueCharge(), device.block))
        && outstandingGrowth == Some(SatSub(Max(device.requested, disk.IntentTarget()), device.current))
      ensures drift.unrestored == old(drift).unrestored && (!read ==> drift.Follows(old(drift)))
      ensures !read ==>
              lastCharge == old(lastCharge) && outstandingGrowth == old(outstandingGrowth)
              && seen == old(seen) && (!readable || !device.Valid())
    {
      Interfere();
      if !readable || !device.Valid() {
        return false;
      }
      TakeReading();
      return true;
    }

    /** What is read is charged in full. */
    method TakeReading()
      requires Quiet() && device.Valid()
      modifies this`seen, this`log, this`drift, this`lastCharge, this`outstandingGrowth
      ensures Quiet() && SentSoFar() == old(SentSoFar()) && old(log).moves <= log.moves
      ensures drift == old(drift).(unseen := 0) && seen == Some(device)
      ensures lastCharge == Some(Charge(TrueCharge(), device.block))
      ensures outstandingGrowth == Some(SatSub(Max(device.requested, disk.IntentTarget()), device.current))
    {
      seen, drift := Some(device), drift.(unseen := 0);
      outstandingGrowth := Some(SatSub(Max(device.requested, control.IntentTarget()), device.current));
      lastCharge := Some(Charge(ChargeOf(control, device), device.block));
      Advance(Read, log.world.(daemon := Some(Daemon(disk, seen, phase))));
    }

    /** Phase one: resolve recorded state and, on a converged device, read the
        guest's request. A request is handed on to act only unlatched, with no
        intent open, and as a new admission: a retransmission always finds the
        result of its request in the journal. */
    method Observe(poll: Poll) returns (r: Observation, ghost read: bool, ghost blind: bool)
      requires Quiet() && Covered()
      modifies this`control, this`disk, this`alive, this`phase, this`device, this`seen, this`log, this`drift,
               this`lastCharge, this`outstandingGrowth, this`operationCounter, this`extension,
               this`pendingProgress, this`widenDue, this`widened
      ensures alive || Died(poll.now)
      ensures Valid() && (alive ==> phase.Idle?) && Covered() && old(log).moves <= log.moves
      ensures drift.Since(old(drift))
      ensures !blind && lastCharge.Some? ==> TrueCharge() <= lastCharge.value.bytes + drift.unseen
      ensures Ledger() <= old(Ledger()) + drift.Total() - old(drift).Total()
      ensures read ==>
                && Observed(r, poll) && seen.Some? && seen.value.Valid()
                && IntentHandled(config, seen.value, old(Remembered()), poll, alive, r, old(Now()), Now())
                && (alive ==> Remembers(config, seen.value, old(Remembered()), poll, old(control), Remembered()))
      ensures if read then poll.readable else !poll.readable || !device.Valid()
      ensures !read ==>
                && SentSoFar() == old(SentSoFar()) && r == (if alive then Held(lastCharge) else Failed)
                && (alive ==> control.latched == (old(control).latched || old(control).intent.Some?))
      ensures blind <==> !read && old(Uncounted())
      ensures GrowthSoFar() == old(GrowthSoFar()) && old(SentSoFar()) <= SentSoFar()
    {
      var live := ReadLive(poll.readable);
      read := live;
      r, blind := ObserveAs(live, poll, old(Remembered()), old(Now()));
    }

    /** Phase one once it is known whether live state could be read. */
    method ObserveAs(read: bool, poll: Poll, ghost was: Memory, ghost before: Doing)
      returns (r: Observation, ghost blind: bool)
      requires Quiet() && Covered() && Remembered() == was && Now() == before
      requires read ==>
        && seen.Some? && seen.value.Valid() && seen.value == device && drift.unseen == 0
        && lastCharge == Some(Charge(TrueCharge(), device.block))
        && outstandingGrowth == Some(SatSub(Max(device.requested, disk.IntentTarget()), device.current))
      modifies this`control, this`disk, this`alive, this`phase, this`device, this`log, this`drift,
               this`operationCounter, this`extension, this`pendingProgress, this`widenDue, this`widened
      ensures alive || Died(poll.now)
      ensures Valid() && (alive ==> phase.Idle?) && Covered() && old(log).moves <= log.moves
      ensures drift.Widens(old(drift))
      ensures !blind && lastCharge.Some? ==> TrueCharge() <= lastCharge.value.bytes + drift.unseen
      ensures Ledger() <= old(Ledger()) + drift.Total() - old(drift).Total()
      ensures read ==>
                && Observed(r, poll) && seen.Some? && seen.value.Valid()
                && IntentHandled(config, seen.value, was, poll, alive, r, before, Now())
                && (alive ==> Remembers(config, seen.value, was, poll, before.control, Remembered()))
      ensures !read ==>
                && SentSoFar() == old(SentSoFar()) && device == old(device)
                && r == (if alive then Held(lastCharge) else Failed)
                && (alive ==> control.latched == (before.control.latched || before.control.intent.Some?))
      ensures blind <==> !read && old(Uncounted())
      ensures GrowthSoFar() == old(GrowthSoFar()) && old(SentSoFar()) <= SentSoFar()
    {
      blind := !read && Uncounted();
      if read {
        r := ObserveLive(poll, was, before);
      } else {
        r := HoldUnread(poll.now);
      }
    }

    /** What phase one leaves with live state in hand. On a converged device the
        guest's request is ready exactly if there is one to admit. */
    ghost predicate Observed(r: Observation, poll: Poll)
      reads this
    {
      && Valid() && (alive ==> phase.Idle?) && (r.Failed? <==> !alive) && (alive || Died(poll.now))
      && lastCharge.Some? && TrueCharge() <= lastCharge.value.bytes + drift.unseen
      && (r.Held? ==> r.charge == lastCharge)
      && (r.ToAct? ==>
            && seen.Some? && seen.value.Converged() && outstandingGrowth == Some(0)
            && lastCharge == Some(Charge(r.ready.state.current, r.ready.state.block)))
      && (r.Stopping? ==> control.latched)
      && ((r.Held? || r.ToAct?) && seen.Some? && seen.value.Converged() ==> Considered(r, poll))
    }

    /** Live state cannot be read: hold the last known charge, and latch if an
        owned operation can no longer be watched. */
    method HoldUnread(now: U64) returns (r: Observation)
      requires Quiet() && Covered()
      modifies this`control, this`disk, this`alive, this`phase, this`log
      ensures alive || Died(now)
      ensures Valid() && (alive ==> phase.Idle?) && Covered() && old(log).moves <= log.moves
      ensures SentSoFar() == old(SentSoFar()) && TrueCharge() == old(TrueCharge())
      ensures r == if alive then Held(lastCharge) else Failed
      ensures alive ==> control.latched == (old(control).latched || old(control).intent.Some?)
    {
      if control.intent.Some? {
        var ok := LatchActuation(now);
        if !ok {
          return Failed;
        }
      }
      return Held(lastCharge);
    }

    /** The ready request is the one the guest published, over its fixed RAM. */
    ghost predicate Offers(poll: Poll, ready: Ready) {
      && poll.envelope.Some? && poll.envelope.value.request == Some(ready.request)
      && ready.baseRam + ready.state.current == poll.envelope.value.total
    }

    /** The guest's request is ready exactly if the guest offers one to admit. */
    ghost predicate Considered(r: Observation, poll: Poll)
      reads this
    {
      && (r.ToAct? ==> ReadyToAct(r.ready) && Offers(poll, r.ready))
      && (r.ToAct? <==> Willing(poll))
    }

    ghost predicate Willing(poll: Poll)
      reads this
    {
      WillingWith(config, control, seen, poll)
    }

    lemma NothingGrew(sent: seq<Sent>, s: Sent)
      requires SentSoFar() == sent || (SentSoFar() == sent + [s] && !s.command.Resize?)
      ensures GrowthSoFar() == TotalGrowth(sent)
    {
      GrowthAdds(sent, s);
    }

    /** Phase one with live state in hand. */
    method ObserveLive(poll: Poll, ghost was: Memory, ghost before: Doing) returns (r: Observation)
      requires Quiet() && seen.Some? && seen.value.Valid() && seen.value == device
      requires Remembered() == was && Now() == before
      requires drift.unseen == 0 && lastCharge == Some(Charge(TrueCharge(), device.block))
      requires outstandingGrowth == Some(SatSub(Max(device.requested, disk.IntentTarget()), device.current))
      modifies this`control, this`disk, this`alive, this`phase, this`device, this`log, this`drift,
               this`operationCounter, this`extension, this`pendingProgress, this`widenDue, this`widened
      ensures Observed(r, poll) && old(log).moves <= log.moves
      ensures drift.Widens(old(drift))
      ensures IntentHandled(config, seen.value, was, poll, alive, r, before, Now())
      ensures alive ==> Remembers(config, seen.value, was, poll, before.control, Remembered())
      ensures GrowthSoFar() == old(GrowthSoFar()) && old(SentSoFar()) <= SentSoFar()
    {
      var ok := ResolveIntent(poll.now);
      if ok {
        r := ObserveSorted(poll, was, before);
      } else {
        UnsortedIsHandled(config, seen.value, was, poll, before, Now());
        r := Failed;
      }
    }

    /** Phase one with the intent sorted out. */
    method ObserveSorted(poll: Poll, ghost was: Memory, ghost before: Doing) returns (r: Observation)
      requires Quiet() && seen.Some? && seen.value.Valid()
      requires IntentSorted(seen.value, poll.now, true, before, Now())
      requires Remembered() == was.(widenDue := WideningDue(before.control, seen.value, was))
      requires lastCharge.Some?
      requires Max(TrueCharge(), Max(seen.value.requested, seen.value.current)) <= lastCharge.value.bytes + drift.unseen
      requires seen.value.current <= lastCharge.value.bytes
      requires seen.value.Converged() ==>
        && (control.intent.Some? ==> control.latched)
        && (!control.latched ==>
              lastCharge.value == Charge(seen.value.current, seen.value.block) && outstandingGrowth == Some(0))
      modifies this`control, this`disk, this`alive, this`phase, this`device, this`log, this`drift,
               this`operationCounter, this`extension, this`pendingProgress, this`widenDue, this`widened
      ensures Observed(r, poll) && old(log).moves <= log.moves
      ensures drift.Widens(old(drift))
      ensures IntentHandled(config, seen.value, was, poll, alive, r, before, Now())
      ensures alive ==> Remembers(config, seen.value, was, poll, before.control, Remembered())
      ensures GrowthSoFar() == old(GrowthSoFar()) && old(SentSoFar()) <= SentSoFar()
    {
      if seen.value.Converged() {
        r := ObserveConverged(poll, was, before);
      } else {
        r := HoldPending(poll, was, before);
      }
    }

    /** The rest of phase one, on a device that has not converged. */
    method HoldPending(poll: Poll, ghost was: Memory, ghost before: Doing) returns (r: Observation)
      requires Quiet() && seen.Some? && seen.value.Valid() && !seen.value.Converged() && Remembered() == was
      requires IntentSorted(seen.value, poll.now, true, before, Now())
      requires lastCharge.Some?
      requires Max(TrueCharge(), Max(seen.value.requested, seen.value.current)) <= lastCharge.value.bytes + drift.unseen
      modifies this`control, this`disk, this`alive, this`phase, this`device, this`log,
               this`drift, this`operationCounter, this`extension, this`pendingProgress
      ensures Observed(r, poll) && old(log).moves <= log.moves
      ensures drift.Follows(old(drift))
      ensures IntentHandled(config, seen.value, was, poll, alive, r, before, Now())
      ensures alive ==> Remembers(config, seen.value, was, poll, before.control, Remembered())
      ensures GrowthSoFar() == old(GrowthSoFar()) && old(SentSoFar()) <= SentSoFar()
    {
      var turn, s := ObservePending(poll);
      NothingGrew(old(SentSoFar()), s);
      r := match turn case Wait => Held(lastCharge) case Stop => Stopping case Ended => Failed;
      PendingIsHandled(config, seen.value, was, poll, alive, r, before, old(Now()), Now());
    }

    /** The rest of phase one, on a converged device. */
    method ObserveConverged(poll: Poll, ghost was: Memory, ghost before: Doing) returns (r: Observation)
      requires Quiet() && seen.Some? && seen.value.Valid() && seen.value.Converged()
      requires IntentSorted(seen.value, poll.now, true, before, Now())
      requires control.intent.Some? ==> control.latched
      requires Remembered() == was.(widenDue := WideningDue(before.control, seen.value, was))
      requires lastCharge.Some? && seen.value.current <= lastCharge.value.bytes
      requires !control.latched ==>
              lastCharge.value == Charge(seen.value.current, seen.value.block) && outstandingGrowth == Some(0)
      requires TrueCharge() <= lastCharge.value.bytes + drift.unseen
      modifies this`control, this`disk, this`alive, this`phase, this`device, this`log, this`drift,
               this`pendingProgress, this`widenDue, this`widened
      ensures Observed(r, poll) && old(log).moves <= log.moves
      ensures drift.Widens(old(drift))
      ensures IntentHandled(config, seen.value, was, poll, alive, r, before, Now())
      ensures alive ==> Remembers(config, seen.value, was, poll, before.control, Remembered())
      ensures GrowthSoFar() == old(GrowthSoFar()) && old(SentSoFar()) <= SentSoFar()
    {
      var turn := WidenIfDue(poll);
      r := if turn.Wait? then Held(lastCharge) else if turn.Stop? then Stopping else Failed;
      ConvergedIsHandled(config, seen.value, was, poll, alive, r, before, old(Now()), Now());
      if turn.Wait? {
        r := ConsiderRequest(poll);
      }
    }

    /** Nothing is pending any more; an empty device may be widened again. */
    method WidenIfDue(poll: Poll) returns (turn: Turn)
      requires Quiet() && seen.Some? && seen.value.Converged()
      modifies this`control, this`disk, this`alive, this`phase, this`device, this`log,
               this`drift, this`pendingProgress, this`widenDue, this`widened
      ensures alive || Died(poll.now)
      ensures Valid() && (alive ==> phase.Idle?) && old(log).moves <= log.moves
      ensures turn.Ended? <==> !alive
      ensures drift.Widens(old(drift))
      ensures TrueCharge() <= old(TrueCharge()) + drift.unseen - old(drift).unseen
      ensures turn.Wait? ==> control == old(control)
      ensures turn.Stop? ==> control.latched
      ensures WideningTried(config, old(widenDue), poll,
                            match turn case Wait => Held(lastCharge) case Stop => Stopping case Ended => Failed,
                            old(Now()), Now())
      ensures Remembered() == MemoryAtRest(config, old(widenDue), old(control.latched), seen.value,
                                           old(Remembered()), poll)
      ensures GrowthSoFar() == old(GrowthSoFar()) && old(SentSoFar()) <= SentSoFar()
    {
      turn, pendingProgress := Wait, None;
      if seen.value.current == 0 {
        widened := false;
      }
      if widenDue {
        ghost var s;
        turn, s := WidenUsableRegion(poll);
        NothingGrew(old(SentSoFar()), s);
      }
    }

    /** What becomes of the guest's request on a converged device: a resolved one
        is only republished, a refused one only reported, a new one is ready. */
    method ConsiderRequest(poll: Poll) returns (r: Observation)
      requires Quiet() && seen.Some? && seen.value.Valid() && seen.value.Converged()
      requires control.intent.Some? ==> control.latched
      ensures r == Held(lastCharge) || r.ToAct?
      ensures Considered(r, poll)
    {
      var live := seen.value;
      if poll.envelope.None? || poll.envelope.value.total < live.current || poll.envelope.value.request.None? {
        return Held(lastCharge);
      }
      var request := poll.envelope.value.request.value;
      NewExactlyWhenAdmissible(control.journal, request, config.vm, config.service, poll.now, config.tolerance);
      var admission := control.journal.Admit(request, config.vm, config.service, poll.now, config.tolerance);
      if !admission.New? {
        assert admission.Replay? ==> control.journal.result.Some?;
        return Held(lastCharge);
      }
      if control.latched {
        return Held(lastCharge);
      }
      return ToAct(Ready.Ready(poll.envelope.value.total - live.current, live, request));
    }

    /** A stopped VM still holds memory; only its charge is watched. */
    method ObserveStopped(poll: Poll, ghost before: Snapshot) returns (r: Observation, ghost blind: bool)
      requires Quiet() && Covered() && Snap().NoMoreThan(before)
      modifies this`device, this`seen, this`log, this`drift, this`lastCharge, this`outstandingGrowth
      ensures ObservedSince(r, blind, before) && r.Held? && old(log).moves <= log.moves
      ensures SentSoFar() == old(SentSoFar())
      ensures blind ==> Snap().Uncounted() && (!poll.readable || !device.Valid())
    {
      var read := ReadLive(poll.readable);
      blind := !read && Uncounted();
      r := Held(lastCharge);
    }

    /** What one observation promises the round. */
    ghost predicate Accounted(r: Observation, blind: bool)
      reads this
    {
      && Quiet() && Covered()
      && (r.Held? ==> r.charge == lastCharge)
      && (r.ToAct? ==>
            && ReadyToAct(r.ready) && outstandingGrowth == Some(0)
            && lastCharge == Some(Charge(r.ready.state.current, r.ready.state.block)))
      && (!blind && lastCharge.Some? ==> TrueCharge() <= lastCharge.value.bytes + drift.unseen)
    }

    ghost function Remembered(): Memory
      reads this
    {
      Memory(pendingProgress, extension, widenDue, widened)
    }

    ghost function Now(): Doing
      reads this
    {
      Doing(control, SentSoFar())
    }

    ghost function Snap(): Snapshot
      reads this
    {
      Snapshot(lastCharge, drift, Ledger(), GrowthSoFar(), outstandingGrowth, control, SentSoFar(), Remembered(),
               stopped, seen, device)
    }

    /** Observed since `before`: accounted for, and holding no more than then. */
    ghost predicate ObservedSince(r: Observation, blind: bool, before: Snapshot)
      reads this
    {
      Accounted(r, blind) && (r.Held? || r.ToAct?) && Snap().NoMoreThan(before)
    }

    /** The round's observation: a VM that must stop is only watched from then on. */
    method ObserveForRound(poll: Poll) returns (r: Observation, ghost blind: bool, ghost read: Option<VirtioMemState>)
      requires Quiet() && Covered()
      modifies this
      ensures alive || Died(poll.now)
      ensures Valid() && old(log).moves <= log.moves
      ensures !alive <==> r.Failed?
      ensures alive ==> ObservedSince(r, blind, old(Snap()))
      ensures Snap().NoMoreThan(old(Snap()))
      ensures alive ==> Heard(config, r, read, blind, poll, old(Snap()), Snap())
      ensures old(stopped) ==> stopped
    {
      if stopped {
        read := None;
        r, blind := ObserveStopped(poll, old(Snap()));
      } else {
        r, blind, read := ObserveRunning(poll, old(Snap()));
      }
    }

    /** A VM that must stop is only watched from then on. */
    method ObserveRunning(poll: Poll, ghost before: Snapshot)
      returns (r: Observation, ghost blind: bool, ghost read: Option<VirtioMemState>)
      requires Quiet() && Covered() && !stopped && Snap() == before
      modifies this`control, this`disk, this`alive, this`phase, this`device, this`seen, this`log, this`drift,
               this`lastCharge, this`outstandingGrowth, this`operationCounter, this`extension,
               this`pendingProgress, this`widenDue, this`widened, this`stopped
      ensures alive || Died(poll.now)
      ensures Valid() && old(log).moves <= log.moves && (!alive <==> r.Failed?)
      ensures alive ==> ObservedSince(r, blind, before) && Heard(config, r, read, blind, poll, before, Snap())
      ensures Snap().NoMoreThan(before)
    {
      r, blind, read := ObserveOnce(poll, before);
      if r.Stopping? {
        ghost var mid := Snap();
        r, blind := StopObserving(poll, before, mid);
        StoppedIsHeard(config, r, read, blind, poll, before, mid, Snap());
      }
    }

    method ObserveOnce(poll: Poll, ghost before: Snapshot)
      returns (r: Observation, ghost blind: bool, ghost read: Option<VirtioMemState>)
      requires Quiet() && Covered() && !stopped && Snap() == before
      modifies this`control, this`disk, this`alive, this`phase, this`device, this`seen, this`log, this`drift,
               this`lastCharge, this`outstandingGrowth, this`operationCounter, this`extension,
               this`pendingProgress, this`widenDue, this`widened
      ensures alive || Died(poll.now)
      ensures Valid() && Covered() && (alive ==> phase.Idle?) && old(log).moves <= log.moves && (!alive <==> r.Failed?)
      ensures r.Held? || r.ToAct? ==>
                ObservedSince(r, blind, before) && Heard(config, r, read, blind, poll, before, Snap())
      ensures r.Stopping? ==> FoundToStop(config, read, poll, before, Snap())
      ensures Snap().NoMoreThan(before)
    {
      ghost var live;
      r, live, blind := Observe(poll);
      read := if live then seen else None;
      if alive {
        ObservedIsHeard(r, read, blind, poll, before);
      }
    }

    lemma ObservedIsHeard(r: Observation, read: Option<VirtioMemState>, blind: bool, poll: Poll, before: Snapshot)
      requires alive && !before.stopped && !stopped && !r.Failed?
      requires read.Some? ==>
        && read == seen && Observed(r, poll) && read.value.Valid() && poll.readable
        && IntentHandled(config, read.value, before.memory, poll, true, r, before.Now(), Now())
        && Remembers(config, read.value, before.memory, poll, before.control, Remembered())
      requires read.None? ==>
        && (!poll.readable || !device.Valid()) && SentSoFar() == before.sent && r.Held?
        && control.latched == (before.control.latched || before.control.intent.Some?)
      requires blind ==> read.None? && before.Uncounted()
      ensures !r.Stopping? ==> Heard(config, r, read, blind, poll, before, Snap())
      ensures r.Stopping? ==> FoundToStop(config, read, poll, before, Snap())
    {
      assert Snap().Now() == Now();
    }

    /** It must stop: from now on only its charge is watched. */
    method StopObserving(poll: Poll, ghost before: Snapshot, ghost mid: Snapshot)
      returns (r: Observation, ghost blind: bool)
      requires Quiet() && Covered() && Snap() == mid && mid.NoMoreThan(before)
      modifies this`device, this`seen, this`log, this`drift, this`lastCharge, this`outstandingGrowth, this`stopped
      ensures ObservedSince(r, blind, before) && r.Held? && old(log).moves <= log.moves
      ensures Snap().stopped && Snap().Now() == mid.Now() && Snap().memory == mid.memory
      ensures blind ==> (!poll.readable || !device.Valid()) && Snap().Uncounted()
    {
      stopped := true;
      r, blind := ObserveStopped(poll, before);
    }

    /** Journal a request that ends without a device command. */
    method RecordUnexecuted(request: Request, now: U64, result: MemoryResult) returns (turn: Turn)
      requires Quiet() && !control.latched && control.intent.None?
      requires Admissible(control.journal, request, config.vm, config.service)
      requires request.ValidAt(config.vm, config.service, now, config.tolerance)
      requires result == MemoryResult(request, if request.operation.Add? then PoolEmpty else Rejected, 0, now, true)
      modifies this`control, this`disk, this`alive, this`phase, this`log
      ensures alive || Died(now)
      ensures Valid() && (alive ==> phase.Idle?) && old(log).moves <= log.moves && SentSoFar() == old(SentSoFar())
      ensures turn == if alive then Wait else Ended
      ensures alive ==> control == Control(false, None, Journal(Some(request), Some(result)))
      ensures disk.intent.None?
    {
      NewExactlyWhenAdmissible(control.journal, request, config.vm, config.service, now, config.tolerance);
      var admission := control.journal.Admit(request, config.vm, config.service, now, config.tolerance);
      control := control.(journal := admission.journal);
      var recorded := control.journal.Record(result);
      if recorded.None? {
        End();
        return Ended;
      }
      control := control.(journal := recorded.value);
      var ok := Save(Conclude(request, now, result));
      turn := if ok then Wait else Ended;
    }

    /** Admission and intent become durable together, before the command. */
    method BeginRequest(ready: Ready, target: U64, now: U64)
      returns (ok: bool, answer: Answer, ghost s: Sent)
      requires ReadyToAct(ready) && ready.state.ValidTarget(target)
      requires ready.request.ValidAt(config.vm, config.service, now, config.tolerance)
      requires Executes(ready.request, ready.state,
                 Intent(0, now, if ready.request.operation.Add? then Grow else Shrink,
                        ready.state.requested, ready.state.current, target))
      modifies this`control, this`disk, this`alive, this`phase, this`device, this`log,
               this`drift, this`operationCounter
      ensures ok || SaveFailed()
      ensures Valid() && ok == alive && old(log).moves <= log.moves
      ensures ok ==>
        && phase == (if answer.Rejection? then Declined(Resize) else Idle)
        && !control.latched && control.journal == Journal(Some(ready.request), None)
        && control.intent.Some? && control.intent.value.target == target
        && control.intent.value.priorCurrent == ready.state.current
        && control.intent.value.operation == operationCounter == old(operationCounter) + 1
        && SentSoFar() == old(SentSoFar()) + [s]
        && s.command.Resize? && s.target == target && s.answer == answer && s.disk == control
      ensures disk.intent.Some? ==> disk.IntentTarget() == target
      ensures drift.Follows(old(drift))
      ensures DeviceCharge(device) <= Max(old(DeviceCharge(device)), target) + drift.unseen - old(drift).unseen
      ensures disk.intent.None? || (ok && answer.Rejection?) ==>
                DeviceCharge(device) <= old(DeviceCharge(device)) + drift.unseen - old(drift).unseen
      ensures !ok ==> SentSoFar() == old(SentSoFar())
      ensures ok && !answer.Rejection? ==> s.device == ready.state
    {
      var request, live := ready.request, ready.state;
      NewExactlyWhenAdmissible(control.journal, request, config.vm, config.service, now, config.tolerance);
      operationCounter := operationCounter + 1;
      var intent := Intent(operationCounter, now, if request.operation.Add? then Grow else Shrink,
                           live.requested, live.current, target);
      var admission := control.journal.Admit(request, config.vm, config.service, now, config.tolerance);
      control := Control(control.latched, Some(intent), admission.journal);
      ok, answer, s := SaveAndSend(Begin(request, now, intent), Resize, target);
    }

    /** Execute a grant. A rejected command releases the intent and refuses the
        request; an unknown answer latches, and stops the VM if it may have grown. */
    method Execute(ready: Ready, target: U64, now: U64) returns (turn: Turn, ghost s: Sent)
      requires ReadyToAct(ready) && ready.state.ValidTarget(target)
      requires ready.request.ValidAt(config.vm, config.service, now, config.tolerance)
      requires Executes(ready.request, ready.state,
                 Intent(0, now, if ready.request.operation.Add? then Grow else Shrink,
                        ready.state.requested, ready.state.current, target))
      modifies this`control, this`disk, this`alive, this`phase, this`device, this`log,
               this`drift, this`operationCounter, this`outstandingGrowth
      ensures alive || Died(now)
      ensures Valid() && (alive ==> phase.Idle?) && old(log).moves <= log.moves
      ensures turn.Ended? <==> !alive
      ensures disk.intent.Some? ==> disk.IntentTarget() == target
      ensures drift.Follows(old(drift))
      ensures DeviceCharge(device) <= Max(old(DeviceCharge(device)), target) + drift.unseen - old(drift).unseen
      ensures disk.intent.None? ==> DeviceCharge(device) <= old(DeviceCharge(device)) + drift.unseen - old(drift).unseen
      ensures alive ==>
        && SentSoFar() == old(SentSoFar()) + [s]
        && s.command.Resize? && s.target == target
        && s.disk.intent.Some? && s.disk.intent.value.priorCurrent == ready.state.current
        && s.disk.journal == Journal(Some(ready.request), None)
        && Answered(s.disk, s.answer, control, now)
        && (turn.Stop? <==> (s.answer.UnknownRan? || s.answer.UnknownLost?) && ready.request.operation.Add?)
      ensures alive && !control.intent.Some? ==> outstandingGrowth == Some(0)
      ensures alive && control.intent.Some? ==> outstandingGrowth == Some(SatSub(target, ready.state.current))
      ensures SentSoFar() == old(SentSoFar()) ||
              (SentSoFar() == old(SentSoFar()) + [s] && s.command.Resize? && s.target == target
               && (!s.answer.Rejection? ==> s.device == ready.state))
      ensures outstandingGrowth in {old(outstandingGrowth), Some(0), Some(SatSub(target, ready.state.current))}
    {
      var ok, answer;
      ok, answer, s := BeginRequest(ready, target, now);
      if !ok {
        turn := Ended;
        return;
      }
      outstandingGrowth := Some(if answer.Rejection? then 0 else SatSub(target, ready.state.current));
      match answer {
        case Done => turn := Wait;
        case Rejection => turn := ReleaseIntent(now);
        case _ =>
          ok := LatchActuation(now);
          turn := if !ok then Ended else if ready.request.operation.Add? then Stop else Wait;
      }
    }

    /** Nothing ran: drop the intent and journal the refusal. */
    method ReleaseIntent(now: U64) returns (turn: Turn)
      requires Valid() && alive && phase == Declined(Resize) && control.journal.request.Some?
      requires control.journal.result.None?
      modifies this`control, this`disk, this`alive, this`phase, this`log
      ensures alive || Died(now)
      ensures Valid() && (alive ==> phase.Idle?) && old(log).moves <= log.moves && SentSoFar() == old(SentSoFar())
      ensures turn == if alive then Wait else Ended
      ensures alive ==>
        control == old(control).(intent := None,
          journal := Journal(old(control).journal.request,
                             Some(RejectedResult(old(control).journal.request.value, now))))
      ensures disk.intent.None? || disk.intent == old(disk.intent)
    {
      control := control.(intent := None);
      var recorded := control.journal.Record(RejectedResult(control.journal.request.value, now));
      if recorded.None? {
        End();
        return Ended;
      }
      control := control.(journal := recorded.value);
      var ok := Save(Release(now));
      turn := if ok then Wait else Ended;
    }

    /** The request passes the checks at the effect boundary. */
    predicate Passes(ready: Ready, now: U64)
      requires 0 < ready.state.block
    {
      && ready.request.ValidAt(config.vm, config.service, now, config.tolerance)
      && ready.request.bytes % ready.state.block == 0
      && !config.observeOnly
    }

    /** The pool's bound on what the VM may hold after executing `ready`. */
    ghost function Limit(ready: Ready, ceiling: Option<U64>): U64 {
      if ceiling.Some? then Max(ready.state.current, ceiling.value) else U64_MAX
    }

    /** Carry a grant out: journal that nothing is free, or execute it. A growth
        is added to `committed` before its command, whatever the answer. */
    method CarryOut(ready: Ready, grant: U64, committed: U64, now: U64, stop: bool)
      returns (turn: Turn, committed': U64, ghost s: Sent)
      requires ReadyToAct(ready) && Covered() && Passes(ready, now)
      requires lastCharge == Some(Charge(ready.state.current, ready.state.block))
      requires grant == 0 || GrantIsExecutable(ready, grant, now)
      requires ready.request.operation.Add? ==> committed + grant <= U64_MAX
      modifies this`control, this`disk, this`alive, this`phase, this`device, this`log,
               this`drift, this`operationCounter, this`outstandingGrowth
      ensures alive || Died(now)
      ensures Valid() && (alive ==> phase.Idle?) && Covered() && old(log).moves <= log.moves
      ensures turn.Ended? <==> !alive
      ensures drift.Follows(old(drift))
      ensures TrueCharge() <= Max(old(TrueCharge()), GrantTarget(ready.request.operation, ready.state, grant))
                              + drift.unseen - old(drift).unseen
      ensures CarriedOut(alive, ready, grant, now, stop, committed' - committed, old(Now()), Now())
      ensures SentSoFar() == old(SentSoFar()) ||
              (SentSoFar() == old(SentSoFar()) + [s] && GrowthOf(s) <= committed' - committed)
      ensures outstandingGrowth == old(outstandingGrowth) || Owing(outstandingGrowth) <= committed' - committed
    {
      committed' := committed;
      turn, s := Wait, Sent.Sent(Resize, 0, Rejection, control, device);
      if grant == 0 {
        var outcome := if ready.request.operation.Add? then PoolEmpty else Rejected;
        turn := RecordUnexecuted(ready.request, now, MemoryResult(ready.request, outcome, 0, now, true));
      } else if !stop {
        turn, committed', s := ExecuteGrant(ready, grant, committed, now);
      }
    }

    /** A growth is added to `committed` before its command. */
    method ExecuteGrant(ready: Ready, grant: U64, committed: U64, now: U64)
      returns (turn: Turn, committed': U64, ghost s: Sent)
      requires ReadyToAct(ready) && Covered() && Passes(ready, now)
      requires lastCharge == Some(Charge(ready.state.current, ready.state.block))
      requires GrantIsExecutable(ready, grant, now)
      requires ready.request.operation.Add? ==> committed + grant <= U64_MAX
      modifies this`control, this`disk, this`alive, this`phase, this`device, this`log,
               this`drift, this`operationCounter, this`outstandingGrowth
      ensures alive || Died(now)
      ensures Valid() && (alive ==> phase.Idle?) && Covered() && old(log).moves <= log.moves
      ensures turn.Ended? <==> !alive
      ensures drift.Follows(old(drift))
      ensures TrueCharge() <= Max(old(TrueCharge()), GrantTarget(ready.request.operation, ready.state, grant))
                              + drift.unseen - old(drift).unseen
      ensures CarriedOut(alive, ready, grant, now, false, committed' - committed, old(Now()), Now())
      ensures SentSoFar() == old(SentSoFar()) ||
              (SentSoFar() == old(SentSoFar()) + [s] && GrowthOf(s) <= committed' - committed)
      ensures outstandingGrowth == old(outstandingGrowth) || Owing(outstandingGrowth) <= committed' - committed
    {
      var target := GrantTarget(ready.request.operation, ready.state, grant);
      committed' := SatAdd(committed, SatSub(target, ready.state.current));
      turn, s := Execute(ready, target, now);
    }

    ghost predicate GrantIsExecutable(ready: Ready, grant: U64, now: U64) {
      var target := GrantTarget(ready.request.operation, ready.state, grant);
      && 0 < grant && 0 <= target <= U64_MAX && ready.state.ValidTarget(target)
      && Executes(ready.request, ready.state,
           Intent(0, now, if ready.request.operation.Add? then Grow else Shrink,
                  ready.state.requested, ready.state.current, target))
    }

    /** Phase two: recheck the request at the effect boundary, grant what is free
        and carry the grant out. */
    method Act(ready: Ready, ceiling: Option<U64>, available: U64, committed: U64, now: U64, stop: bool)
      returns (turn: Turn, committed': U64, ghost s: Sent)
      requires ReadyToAct(ready) && Covered()
      requires lastCharge == Some(Charge(ready.state.current, ready.state.block))
      modifies this`control, this`disk, this`alive, this`phase, this`device, this`log,
               this`drift, this`operationCounter, this`outstandingGrowth
      ensures alive || Died(now)
      ensures Valid() && (alive ==> phase.Idle?) && Covered() && old(log).moves <= log.moves
      ensures turn.Ended? <==> !alive
      ensures drift.Follows(old(drift))
      ensures TrueCharge() <= Max(old(TrueCharge()), Limit(ready, ceiling)) + drift.unseen - old(drift).unseen
      ensures committed <= committed'
      ensures committed < committed' ==>
        && committed' + config.headroom + GROW_ADMISSION_MARGIN_BYTES <= available
        && (ceiling.Some? ==> ready.state.current < ceiling.value)
      ensures Acted(config, alive, ready, Chance(ceiling, committed, Boundary(now, stop, available)),
                    committed' - committed, old(Now()), Now())
      ensures SentSoFar() == old(SentSoFar()) ||
              (SentSoFar() == old(SentSoFar()) + [s] && GrowthOf(s) <= committed' - committed)
      ensures outstandingGrowth == old(outstandingGrowth) || Owing(outstandingGrowth) <= committed' - committed
    {
      turn, committed', s := Wait, committed, Sent.Sent(Resize, 0, Rejection, control, device);
      if Passes(ready, now) {
        var grant := Grant(config, ready.request, ready.state, ready.baseRam, ceiling, available, committed);
        if 0 < grant {
          GrantExecutes(ready, ceiling, available, committed, now);
        }
        turn, committed', s := CarryOut(ready, grant, committed, now, stop);
        CarriedIsActed(config, alive, ready, Chance(ceiling, committed, Boundary(now, stop, available)),
                       committed' - committed, old(Now()), Now());
      }
    }

    /** A granted amount is a command the protocol allows for the request. */
    lemma GrantExecutes(ready: Ready, ceiling: Option<U64>, available: U64, committed: U64, now: U64)
      requires ready.state.Valid() && ready.state.Converged()
      requires 0 < Grant(config, ready.request, ready.state, ready.baseRam, ceiling, available, committed)
      ensures
        var grant := Grant(config, ready.request, ready.state, ready.baseRam, ceiling, available, committed);
        var target := GrantTarget(ready.request.operation, ready.state, grant);
        && GrantIsExecutable(ready, grant, now)
        && (ready.request.operation.Add? ==>
              && committed + grant + config.headroom + GROW_ADMISSION_MARGIN_BYTES <= available
              && (ceiling.Some? ==> target <= ceiling.value))
        && (ready.request.operation.Remove? ==> target <= ready.state.current)
    {
      match ready.request.operation
      case Add => AddGrantIsLargest(config, ready.request, ready.state, ready.baseRam, ceiling, available, committed,
                                    0);
      case Remove => RemoveGrantIsLargest(config, ready.request, ready.state, ready.baseRam, 0);
    }

    ghost predicate WithinCeiling(ceiling: Option<U64>, blind: bool)
      reads this
    {
      ceiling.Some? && lastCharge.Some? && lastCharge.value.bytes <= ceiling.value && !blind ==>
        Ledger() <= ceiling.value + drift.unseen
    }

    /** What phase two keeps of the VM since `before`: its charge on record, its
        memory when it has nothing to execute, and its ceiling. */
    ghost predicate Kept(r: Observation, ceiling: Option<U64>, blind: bool, before: Snapshot)
      reads this
    {
      && Valid() && lastCharge == before.charge
      && drift.Follows(before.drift)
      && (!r.ToAct? ==> Ledger() == before.ledger)
      && (ceiling.Some? ==> Ledger() <= Max(before.ledger, ceiling.value) + drift.Total() - before.drift.Total())
      && WithinCeiling(ceiling, blind)
    }

    /** What a turn made of the observation, with `share` added to what was committed. */
    ghost predicate Turned(r: Observation, chance: Chance, before: Snapshot, share: int)
      reads this
    {
      if r.ToAct? then Acted(config, alive, r.ready, chance, share, Doing(before.control, before.sent), Now())
      else control == before.control && SentSoFar() == before.sent && share == 0
    }

    /** Where the VM stands in phase two: before its turn or after it. */
    ghost predicate InRound(acted: bool, r: Observation, ceiling: Option<U64>, blind: bool, before: Snapshot)
      reads this
    {
      && Kept(r, ceiling, blind, before)
      && Quiet() && Covered()
      && (!acted ==> Accounted(r, blind) && Snap() == before)
    }

    /** An accounted VM may take its turn under any ceiling that covers its charge. */
    lemma TurnMayStart(r: Observation, ceiling: Option<U64>, blind: bool)
      requires Accounted(r, blind)
      requires ceiling.Some? && lastCharge.Some? ==> lastCharge.value.bytes <= ceiling.value
      ensures InRound(false, r, ceiling, blind, Snap())
    {
    }

    /** Phase two as the round sees it. */
    method ActReady(ready: Ready, ceiling: Option<U64>, committed: U64, poll: Poll)
      returns (turn: Turn, committed': U64, ghost s: Sent)
      requires ReadyToAct(ready) && Covered()
      requires lastCharge == Some(Charge(ready.state.current, ready.state.block))
      modifies this`control, this`disk, this`alive, this`phase, this`device, this`log,
               this`drift, this`operationCounter, this`outstandingGrowth, this`stopped
      ensures alive || Died(poll.boundary.now)
      ensures Valid() && (alive ==> phase.Idle?) && Covered()
      ensures turn.Ended? <==> !alive
      ensures drift.Follows(old(drift))
      ensures ceiling.Some? ==>
        TrueCharge() <= Max(old(TrueCharge()), Max(ready.state.current, ceiling.value))
                + drift.unseen - old(drift).unseen
      ensures committed <= committed'
      ensures committed < committed' ==>
        && committed' + config.headroom + GROW_ADMISSION_MARGIN_BYTES <= poll.boundary.available
        && (ceiling.Some? ==> ready.state.current < ceiling.value)
      ensures Acted(config, alive, ready, Chance(ceiling, committed, poll.boundary), committed' - committed,
                    old(Now()), Now())
      ensures SentSoFar() == old(SentSoFar()) ||
              (SentSoFar() == old(SentSoFar()) + [s] && GrowthOf(s) <= committed' - committed)
      ensures outstandingGrowth == old(outstandingGrowth) || Owing(outstandingGrowth) <= committed' - committed
    {
      turn, committed', s := Act(ready, ceiling, poll.boundary.available, committed, poll.boundary.now,
                                 poll.boundary.stop);
      stopped := stopped || turn.Stop?;
    }

    lemma TurnIsPaidFor(sent: seq<Sent>, s: Sent, before: Snapshot, share: nat)
      requires TotalGrowth(sent) == before.growth
      requires SentSoFar() == sent || (SentSoFar() == sent + [s] && GrowthOf(s) <= share)
      requires outstandingGrowth == before.owed || Owing(outstandingGrowth) <= share
      ensures Snap().Spent(share, before)
    {
      GrowthAdds(sent, s);
    }

    /** The VM's turn in the round. Within a ceiling that covers its charge it
        never ends up above the ceiling. */
    method ActForRound(r: Observation, ceiling: Option<U64>, committed: U64, poll: Poll,
                       ghost blind: bool, ghost before: Snapshot)
      returns (ok: bool, committed': U64)
      requires InRound(false, r, ceiling, blind, before)
      modifies this
      ensures alive || Died(poll.boundary.now)
      ensures Kept(r, ceiling, blind, before) && (ok ==> InRound(true, r, ceiling, blind, before))
      ensures Turned(r, Chance(ceiling, committed, poll.boundary), before, committed' - committed) && (ok <==> alive)
      ensures committed <= committed'
      ensures committed < committed' ==>
        && committed' + config.headroom + GROW_ADMISSION_MARGIN_BYTES <= poll.boundary.available
        && (ceiling.Some? ==> before.charge.Some? && before.charge.value.bytes < ceiling.value)
      ensures Snap().Spent(committed' - committed, before)
    {
      ok, committed' := true, committed;
      if r.ToAct? {
        var turn: Turn;
        ghost var s: Sent;
        turn, committed', s := ActReady(r.ready, ceiling, committed, poll);
        TurnIsPaidFor(old(SentSoFar()), s, before, committed' - committed);
        ok := !turn.Ended?;
      }
    }
  }
}
