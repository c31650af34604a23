/** The guest's policy: turn its own readings and the host's published device
    state into at most one outstanding add or remove request. */
module GuestRequests {
  import opened Arithmetic
  import opened Device
  import opened Requests
  import Estimation
  import opened Wrappers

  datatype GuestPolicy = GuestPolicy(
    target: Estimation.Policy,
    growStep: U64,
    shrinkStep: U64,
    statusMaxAge: U64,
    lifetime: U64
  ) {
    predicate Valid() {
      && target.Valid()
      && 0 < growStep && 0 < shrinkStep && 0 < statusMaxAge
      && 0 < lifetime <= MAX_REQUEST_LIFETIME_MILLIS
    }
  }

  /** What the host writes beside the guest's publication. */
  datatype HostStatus = HostStatus(
    version: U64,
    vm: string,
    service: string,
    observed: U64,
    device: VirtioMemState,
    result: Option<MemoryResult>
  ) {
    predicate ValidFor(vm: string, service: string) {
      && version == MEMORY_REQUEST_VERSION && this.vm == vm && this.service == service
      && 0 < observed
      && device.Valid()
      && (result.Some? ==>
            && result.value.ValidFor(result.value.request)
            && result.value.request.BelongsTo(vm, service)
            && result.value.observed <= observed)
    }

    predicate FreshAt(now: U64, maxAge: U64) {
      (if observed < now then now - observed else observed - now) <= maxAge
    }
  }

  /** What the guest retains across service restarts. */
  datatype GuestState = GuestState(pending: Option<Request>, lastIssued: U64) {
    /** A service of this VM and name can take the state over. */
    predicate Restorable(vm: string, service: string) {
      pending.Some? ==>
        && pending.value.Valid() && pending.value.BelongsTo(vm, service)
        && pending.value.issued <= lastIssued
    }
  }

  const NOTHING_ISSUED := GuestState(None, 0)

  datatype Plan = Invalid | Hold | Move(operation: Operation, bytes: U64)

  /** The next delta for a converged device. Growth goes to the desired size at
      once; reclaim needs a full window, is bounded by the step, and stays at or
      above both the desired size and the safe floor. */
  function PlanRequest(estimate: Estimation.TargetEstimate, device: VirtioMemState, policy: GuestPolicy): (plan: Plan)
    ensures plan.Move? ==> 0 < plan.bytes && device.Converged()
    ensures plan.Move? && plan.operation.Add? ==> device.current + plan.bytes == estimate.desired
    ensures plan.Move? && plan.operation.Remove? ==>
              && estimate.historyReady && plan.bytes <= policy.shrinkStep
              && Max(estimate.desired, estimate.safeFloor) <= device.current - plan.bytes
  {
    if !device.Valid() then Invalid
    else if policy.growStep % device.block != 0 || policy.shrinkStep % device.block != 0 then Invalid
    else if device.requested != device.current then Hold
    else
      var current := device.current;
      if current < estimate.desired then Move(Add, estimate.desired - current)
      else if estimate.desired < current && estimate.historyReady then
        var target := Max(Max(SatSub(current, policy.shrinkStep), estimate.desired), estimate.safeFloor);
        if target < current then Move(Remove, current - target) else Hold
      else Hold
  }

  datatype Retry = Retry(operation: Operation, since: U64, delay: U64)

  /** The request to publish, whether the state must be persisted first, and the
      result this poll consumed. */
  datatype Decision = Decision(request: Option<Request>, persist: bool, resolved: Option<MemoryResult>)

  const HOLD := Decision(None, false, None)

  datatype Polled = Failed | Decided(decision: Decision)

  /** The operation failed too recently, and nothing urgent has come up since. */
  predicate BacksOff(retry: Option<Retry>, operation: Operation, monotonic: U64, urgent: bool) {
    && retry.Some? && retry.value.operation == operation
    && retry.value.since <= monotonic < retry.value.since + retry.value.delay
    && !(operation.Add? && urgent)
  }

  datatype Sighting = Unusable | Converging | At(device: VirtioMemState)

  /** The status carries a terminal result of exactly this request. */
  ghost predicate Answers(status: Option<HostStatus>, pending: Request) {
    && status.Some? && status.value.result.Some?
    && status.value.result.value.request == pending && !status.value.result.value.outcome.Uncertain?
  }

  /** How a usable status resolves the pending request, if it does. */
  function Resolution(pending: Request, status: Option<HostStatus>): Option<MemoryResult> {
    if status.Some? && status.value.result.Some? && status.value.result.value.request == pending
       && status.value.result.value.Terminal()
    then status.value.result else None
  }

  /** From a sample at least one window old until now, every poll was High over a
      fresh status: it was estimated, or the device was still converging. */
  ghost predicate HighThroughout(log: seq<Estimation.Observation>, window: U64, now: U64) {
    exists from: nat :: from < |log| && log[from].Taken? && log[from].t + window <= now
        && Estimation.AllHigh(log[from..])
  }

  /** Every sample of the last window that no upper limit cut short would have
      kept both reserves at `size`. */
  ghost predicate ReservesHeld(e: Estimation.TargetEstimator, size: U64)
    reads e
  {
    forall i :: 0 <= i < |e.run| && e.run[i].Taken? && e.lastMonotonic <= e.run[i].t + e.policy.window
                && Estimation.Unlimited(e.policy, e.run[i]) ==>
                  Estimation.ReservesKept(e.policy, e.run[i].reading, size)
  }

  /** What one poll makes of the retained state, given a usable status. */
  ghost predicate Polls(
    before: GuestState, sequence: U64, vm: string, service: string, session: string, now: U64,
    status: Option<HostStatus>,
    after: GuestState, sequence': U64, decision: Decision)
  {
    if before.pending.Some? then
      && sequence' == sequence
      && if Answers(status, before.pending.value)
         then after == before.(pending := None) && decision == Decision(None, true, status.value.result)
         else after == before && decision == Decision(before.pending, false, None)
    else if decision == HOLD then after == before && sequence' == sequence
    else
      && after == GuestState(decision.request, now) && before.lastIssued < now && decision.persist
          && decision.resolved.None?
      && sequence' == sequence + 1
      && after.pending.Some? && Issued(after.pending.value, Identity(vm, service, session, sequence), now)
  }

  predicate Issued(request: Request, identity: Identity, now: U64) {
    request.Valid() && request.identity == identity && request.issued == now
  }

  /** The estimate is the estimator's own, of its latest sample. */
  ghost predicate Backs(e: Estimation.TargetEstimator, estimate: Estimation.TargetEstimate, now: U64)
    reads e
  {
    && e.lastMonotonic == now
    && estimate.desired == e.desired && estimate.safeFloor == e.safeFloor
    && (estimate.historyReady <==> Estimation.SpansWindow(e.run, e.policy.window, now))
    && e.log != [] && e.log[|e.log| - 1].Taken?
    && estimate.maximum == e.log[|e.log| - 1].target.maximum
  }

  /** Why a change of `bytes` is asked for: growth to what is desired, or a step
      more under Low pressure; a removal that a full window of High polls backs and
      that keeps both reserves for its samples. */
  ghost predicate Justified(
    policy: GuestPolicy, low: bool, e: Estimation.TargetEstimator, operation: Operation, bytes: U64,
    device: VirtioMemState, now: U64)
    reads e
  {
    && device.Converged()
    && match operation
       case Add =>
         && e.log != [] && e.log[|e.log| - 1].Taken?
         && var step := Min(SatAdd(device.current, policy.growStep), e.log[|e.log| - 1].target.maximum);
            device.current + bytes == if low then Max(e.desired, step) else e.desired
       case Remove =>
         && bytes <= policy.shrinkStep && bytes <= device.current
         && Max(e.desired, e.safeFloor) <= device.current - bytes
         && e.lastMonotonic == now
         && HighThroughout(e.log, e.policy.window, now)
         && (Estimation.FixedMaximum(e.run) ==> ReservesHeld(e, device.current - bytes))
  }

  /** The plan, with Windows' own Low signal asking for at least one step more. */
  function PlanFor(policy: GuestPolicy, low: bool, estimate: Estimation.TargetEstimate, device: VirtioMemState): Plan {
    var desired := if low
                   then Max(estimate.desired, Min(SatAdd(device.current, policy.growStep), estimate.maximum))
                   else estimate.desired;
    PlanRequest(estimate.(desired := desired), device, policy)
  }

  // ----- when a change is due -----

  /** The device is below what is desired or, under Low pressure, below its maximum. */
  ghost predicate GrowthDue(low: bool, estimate: Estimation.TargetEstimate, device: VirtioMemState) {
    device.current < estimate.desired || (low && device.current < estimate.maximum)
  }

  /** The size a removal has to leave. */
  ghost function SizeToKeep(low: bool, estimate: Estimation.TargetEstimate): U64 {
    Max(Max(estimate.desired, estimate.safeFloor), if low then estimate.maximum else 0)
  }

  /** A full window backs giving up what is above the size to keep. */
  ghost predicate RemovalDue(low: bool, estimate: Estimation.TargetEstimate, device: VirtioMemState) {
    !GrowthDue(low, estimate, device) && estimate.historyReady && SizeToKeep(low, estimate) < device.current
  }

  /** A change of `bytes` is due: growth all the way to what is desired or, under Low
      pressure, at least a step towards the maximum; or a removal of a whole step, or
      of all that is above the size to keep. */
  ghost predicate Due(
    policy: GuestPolicy, low: bool, estimate: Estimation.TargetEstimate, device: VirtioMemState,
    operation: Operation, bytes: U64)
  {
    match operation
    case Add =>
      && GrowthDue(low, estimate, device)
      && device.current + bytes ==
           Max(estimate.desired, if low then Min(device.current + policy.growStep, estimate.maximum) else 0)
    case Remove =>
      && RemovalDue(low, estimate, device)
      && bytes == Min(policy.shrinkStep, device.current - SizeToKeep(low, estimate))
  }

  ghost predicate NothingDue(low: bool, estimate: Estimation.TargetEstimate, device: VirtioMemState) {
    !GrowthDue(low, estimate, device) && !RemovalDue(low, estimate, device)
  }

  /** The device is valid and both steps are whole blocks of it. */
  ghost predicate Plannable(policy: GuestPolicy, device: VirtioMemState) {
    device.Valid() && policy.growStep % device.block == 0 && policy.shrinkStep % device.block == 0
  }

  /** On a converged device the plan is exactly what is due. */
  lemma PlansExactlyWhatIsDue(
    policy: GuestPolicy, low: bool, estimate: Estimation.TargetEstimate, device: VirtioMemState,
    operation: Operation, bytes: U64)
    requires policy.Valid() && device.Converged()
    ensures
      var plan := PlanFor(policy, low, estimate, device);
      && (plan.Invalid? <==> !Plannable(policy, device))
      && (plan.Hold? <==> Plannable(policy, device) && NothingDue(low, estimate, device))
      && (plan == Move(operation, bytes) <==>
            Plannable(policy, device) && Due(policy, low, estimate, device, operation, bytes))
      && (plan.Move? ==> Due(policy, low, estimate, device, plan.operation, plan.bytes) && 0 < plan.bytes)
  {
  }

  /** Every change that is due is justified. */
  lemma DueChangeIsJustified(
    policy: GuestPolicy, low: bool, e: Estimation.TargetEstimator, estimate: Estimation.TargetEstimate,
    device: VirtioMemState, operation: Operation, bytes: U64, now: U64)
    requires e.Valid() && Backs(e, estimate, now) && device.Converged()
    requires Due(policy, low, estimate, device, operation, bytes)
    ensures Justified(policy, low, e, operation, bytes, device, now)
  {
    if operation.Remove? {
      WindowWasHigh(e, now);
      if Estimation.FixedMaximum(e.run) {
        RemovalIsSafe(e, device.current - bytes);
      }
    }
  }

  /** Whatever is due is justified. */
  ghost predicate DueIsJustified(
    policy: GuestPolicy, low: bool, e: Estimation.TargetEstimator, estimate: Estimation.TargetEstimate,
    device: VirtioMemState, now: U64)
    reads e
  {
    forall operation, bytes: U64 {:trigger Due(policy, low, estimate, device, operation, bytes)} ::
      Due(policy, low, estimate, device, operation, bytes) ==> Justified(policy, low, e, operation, bytes, device, now)
  }

  lemma WhatIsDueIsJustified(
    policy: GuestPolicy, low: bool, e: Estimation.TargetEstimator, estimate: Estimation.TargetEstimate,
    device: VirtioMemState, now: U64)
    requires e.Valid() && Backs(e, estimate, now) && policy.Valid() && device.Converged()
    ensures DueIsJustified(policy, low, e, estimate, device, now)
  {
    forall operation, bytes: U64 | Due(policy, low, estimate, device, operation, bytes)
      ensures Justified(policy, low, e, operation, bytes, device, now)
    {
      DueChangeIsJustified(policy, low, e, estimate, device, operation, bytes, now);
    }
  }

  lemma RemovalIsSafe(e: Estimation.TargetEstimator, size: U64)
    requires e.Valid() && e.desired <= size && Estimation.FixedMaximum(e.run)
    ensures ReservesHeld(e, size)
  {
    forall i | 0 <= i < |e.run| && e.run[i].Taken? && e.lastMonotonic <= e.run[i].t + e.policy.window
               && Estimation.Unlimited(e.policy, e.run[i])
      ensures Estimation.ReservesKept(e.policy, e.run[i].reading, size)
    {
      e.DesiredKeepsReserves(i, size);
    }
  }

  lemma WindowWasHigh(e: Estimation.TargetEstimator, now: U64)
    requires e.Valid() && Estimation.SpansWindow(e.run, e.policy.window, now)
    ensures HighThroughout(e.log, e.policy.window, now)
  {
    var from := Estimation.RunIsUnbroken(e.log, e.policy.maximumGap);
  }

  /** A request of this kind failed less than its delay ago; only growth that has
      just become urgent is asked for all the same. */
  ghost predicate TooSoon(retry: Option<Retry>, operation: Operation, monotonic: U64, urgent: bool) {
    && retry.Some? && operation == retry.value.operation
    && 0 <= monotonic - retry.value.since < retry.value.delay
    && (operation.Add? ==> !urgent)
  }

  /** What is due is not asked for: nothing is, the clock has not passed the watermark,
      or it is too soon to ask again. */
  ghost predicate HoldsBack(
    low: bool, estimate: Estimation.TargetEstimate, device: VirtioMemState, before: GuestState,
    retry: Option<Retry>, sample: Estimation.Sample, urgent: bool)
  {
    || NothingDue(low, estimate, device)
    || sample.observed <= before.lastIssued
    || TooSoon(retry, if GrowthDue(low, estimate, device) then Add else Remove, sample.monotonic, urgent)
  }

  /** What is due is asked for, exactly, unless something holds it back; and the poll
      fails exactly if nothing can be planned or the request cannot be written. */
  ghost predicate Proposed(
    policy: GuestPolicy, low: bool, estimate: Estimation.TargetEstimate, device: VirtioMemState, before: GuestState,
    sequence: U64, retry: Option<Retry>, sample: Estimation.Sample, urgent: bool, r: Polled)
  {
    var held := HoldsBack(low, estimate, device, before, retry, sample, urgent);
    && (r == Decided(HOLD) <==> Plannable(policy, device) && held)
    && (r.Failed? <==>
          || !Plannable(policy, device)
          || (!held && (U64_MAX < sample.observed + policy.lifetime || sequence == U64_MAX)))
    && (r.Decided? && r.decision != HOLD ==>
          && r.decision.request.Some?
          && r.decision.request.value.expires == sample.observed + policy.lifetime
          && Due(policy, low, estimate, device, r.decision.request.value.operation, r.decision.request.value.bytes))
  }

  /** A status of this VM and service over a valid device, and with no result or a valid
      one of this VM and service that is not later than the status. */
  ghost predicate Credible(vm: string, service: string, status: HostStatus) {
    && status.version == MEMORY_REQUEST_VERSION && status.vm == vm && status.service == service
    && status.observed != 0 && status.device.Valid()
    && match status.result
       case None => true
       case Some(result) =>
         && result.ValidFor(result.request) && result.observed <= status.observed
         && result.request.identity.vm == vm && result.request.identity.service == service
  }

  /** The status is usable, and not older or newer than allowed. */
  ghost predicate Recent(policy: GuestPolicy, usable: Option<HostStatus>, now: U64) {
    && usable.Some? && now <= usable.value.observed + policy.statusMaxAge
    && usable.value.observed <= now + policy.statusMaxAge
  }

  /** The status shows the device now, and the device has converged. */
  ghost predicate Shows(policy: GuestPolicy, usable: Option<HostStatus>, now: U64) {
    Recent(policy, usable, now) && usable.value.device.requested == usable.value.device.current
  }

  /** The poll left one observation: a sample if a converged device is shown, nothing
      if one converges under High, and a break otherwise. */
  ghost predicate Noted(
    policy: GuestPolicy, usable: Option<HostStatus>, sample: Estimation.Sample,
    before: seq<Estimation.Observation>, after: seq<Estimation.Observation>)
  {
    && |after| == |before| + 1 && before < after
    && (after[|before|].Taken? <==> Shows(policy, usable, sample.observed))
    && (after[|before|].Idle? <==>
          && Recent(policy, usable, sample.observed) && !Shows(policy, usable, sample.observed)
          && sample.pressure == Some(Estimation.High))
  }

  ghost predicate CannotEstimate(e: Estimation.TargetEstimator, sample: Estimation.Sample, device: VirtioMemState)
    reads e
  {
    e.Refuses(sample, Estimation.Geometry(device.size, device.block, device.current))
  }

  /** The estimator's latest observation is this sample's reading of this device, with
      the least target that serves it. */
  ghost predicate Measured(e: Estimation.TargetEstimator, sample: Estimation.Sample, device: VirtioMemState)
    reads e
  {
    && e.log != [] && e.log[|e.log| - 1].Taken?
    && var o := e.log[|e.log| - 1];
    && o.t == sample.monotonic && (o.high <==> sample.pressure == Some(Estimation.High))
    && device.current <= sample.memory.physicalTotal
    && o.reading == Estimation.Reading(sample.memory, device.current, sample.memory.physicalTotal - device.current)
    && var geometry := Estimation.Geometry(device.size, device.block, device.current);
    && Estimation.IsLeast(e.policy, o.reading, Estimation.LimitsOf(e.policy, geometry, e.minRam, e.maxRam), o.target)
  }

  class GuestRequester {
    const policy: GuestPolicy
    const estimator: Estimation.TargetEstimator
    const vm: string
    const service: string
    const session: string
    var state: GuestState
    var nextSequence: U64
    var retry: Option<Retry>
    var retryDelay: U64
    var nativeLow: bool
    var numericCritical: bool

    ghost predicate Settled()
      reads this
    {
      && policy.Valid() && estimator.policy == policy.target
      && ValidIdentity(vm) && ValidIdentity(service) && ValidIdentity(session)
      && state.Restorable(vm, service)
      && (retryDelay == 0 || 1_000 <= retryDelay <= 30_000)
    }

    ghost predicate Valid()
      reads this, estimator
    {
      Settled() && estimator.Valid()
    }

    constructor (policy: GuestPolicy, vm: string, service: string, session: string, state: GuestState)
      requires policy.Valid() && ValidIdentity(vm) && ValidIdentity(service) && ValidIdentity(session)
      requires state.Restorable(vm, service)
      ensures Valid() && fresh(estimator) && this.state == state && nextSequence == 0
      ensures retry.None? && retryDelay == 0 && !nativeLow && !numericCritical
      ensures this.vm == vm && this.service == service && this.session == session && this.policy == policy
    {
      this.policy, this.vm, this.service, this.session, this.state := policy, vm, service, session, state;
      nextSequence, retry, retryDelay, nativeLow, numericCritical := 0, None, 0, false, false;
      estimator := new Estimation.TargetEstimator(policy.target);
    }

    /** Take over a retained state, or fail closed. */
    static method Open(policy: GuestPolicy, vm: string, service: string, session: string, state: GuestState)
      returns (taken: Option<GuestRequester>)
      ensures taken.Some? <==>
              && policy.target.Valid() && 0 < policy.growStep && 0 < policy.shrinkStep && 0 < policy.statusMaxAge
              && 0 < policy.lifetime <= MAX_REQUEST_LIFETIME_MILLIS
              && ValidIdentity(vm) && ValidIdentity(service) && ValidIdentity(session)
              && (state.pending.Some? ==>
                    && state.pending.value.Valid() && state.pending.value.issued <= state.lastIssued
                    && state.pending.value.identity.vm == vm && state.pending.value.identity.service == service)
      ensures taken.Some? ==>
        && fresh(taken.value) && taken.value.Valid() && taken.value.state == state && taken.value.policy == policy
        && taken.value.vm == vm && taken.value.service == service && taken.value.session == session
    {
      if !policy.Valid() || !ValidIdentity(vm) || !ValidIdentity(service) || !ValidIdentity(session)
         || !state.Restorable(vm, service) {
        return None;
      }
      var requester := new GuestRequester(policy, vm, service, session, state);
      return Some(requester);
    }

    method Measure(sample: Estimation.Sample, device: VirtioMemState)
      returns (estimate: Option<Estimation.TargetEstimate>)
      requires Valid()
      modifies estimator
      ensures estimate.Some? ==>
                && Valid() && estimator.minRam == old(estimator.minRam) && estimator.maxRam == old(estimator.maxRam)
                && Backs(estimator, estimate.value, sample.monotonic)
                && |estimator.log| == |old(estimator.log)| + 1 && old(estimator.log) < estimator.log
                && Measured(estimator, sample, device)
      ensures estimate.None? ==> old(CannotEstimate(estimator, sample, device))
                                 || Estimation.Overflows(estimator.history, policy.target.hysteresis)
    {
      var r := estimator.Estimate(sample, Estimation.Geometry(device.size, device.block, device.current));
      estimate := if r.Ok? then Some(r.value) else None;
    }

    /** Sample the device the status shows, unless the status is unusable or the
        device is still converging. `None` ends the service. */
    method Observe(sample: Estimation.Sample, sighting: Sighting)
      returns (estimate: Option<Option<Estimation.TargetEstimate>>)
      requires Valid()
      modifies estimator
      ensures estimate.Some? ==>
              Valid() && estimator.minRam == old(estimator.minRam)
              && estimator.maxRam == old(estimator.maxRam)
      ensures estimate.Some? && estimate.value.Some? ==>
                Backs(estimator, estimate.value.value, sample.monotonic)
      ensures estimate.Some? ==> (estimate.value.Some? <==> sighting.At?)
      ensures estimate.None? ==>
                && sighting.At?
                && (old(CannotEstimate(estimator, sample, sighting.device))
                    || Estimation.Overflows(estimator.history, policy.target.hysteresis))
      ensures estimate.Some? ==>
                && |estimator.log| == |old(estimator.log)| + 1 && old(estimator.log) < estimator.log
                && var o := estimator.log[|old(estimator.log)|];
                && (o.Taken? <==> sighting.At?) && (sighting.At? ==> Measured(estimator, sample, sighting.device))
                && (o.Idle? <==> sighting.Converging? && sample.pressure == Some(Estimation.High))
    {
      match sighting {
        case At(device) =>
          var measured := Measure(sample, device);
          estimate := if measured.Some? then Some(measured) else None;
        case Converging =>
          if sample.pressure == Some(Estimation.High) {
            estimator.PassOver();
          } else {
            estimator.InvalidateHistory();
          }
          estimate := Some(None);
        case Unusable =>
          estimator.InvalidateHistory();
          estimate := Some(None);
      }
    }

    ghost predicate Decides(before: GuestState, sequence: U64, now: U64, status: Option<HostStatus>, r: Polled)
      reads this
    {
      r.Decided? ==> Polls(before, sequence, vm, service, session, now, status, state, nextSequence, r.decision)
    }

    /** Keep a pending request until its own terminal result is read; back off
        after anything but completion. */
    method Await(monotonic: U64, now: U64, status: Option<HostStatus>) returns (r: Polled)
      requires Settled() && state.pending.Some?
      modifies this`state, this`retry, this`retryDelay
      ensures Settled() && r.Decided? && Decides(old(state), nextSequence, now, status, r)
      ensures
        if !Answers(status, old(state).pending.value) then retry == old(retry) && retryDelay == old(retryDelay)
        else if status.value.result.value.outcome.Completed? then retry.None? && retryDelay == 0
        else
          && retryDelay == (if old(retryDelay) == 0 then 1_000 else Min(2 * old(retryDelay), 30_000))
          && retry == Some(Retry(old(state).pending.value.operation, monotonic, retryDelay))
    {
      var resolved := Resolution(state.pending.value, status);
      if resolved.None? { return Decided(Decision(state.pending, false, None)); }
      state := state.(pending := None);
      if resolved.value.outcome.Completed? {
        retry, retryDelay := None, 0;
      } else {
        retryDelay := Min(Max(Min(retryDelay * 2, U64_MAX), 1_000), 30_000);
        retry := Some(Retry(resolved.value.request.operation, monotonic, retryDelay));
      }
      return Decided(Decision(None, true, resolved));
    }

    /** Issue the planned request, unless the clock has not passed the last one or
        the operation is backing off. */
    method Issue(operation: Operation, bytes: U64, monotonic: U64, now: U64, urgent: bool) returns (r: Polled)
      requires Settled() && state.pending.None?
      modifies this`state, this`nextSequence
      ensures Settled() && Decides(old(state), old(nextSequence), now, None, r)
      ensures r.Failed? ==> state == old(state)
      ensures r == Decided(HOLD) <==> now <= old(state).lastIssued || TooSoon(retry, operation, monotonic, urgent)
      ensures r.Failed? <==>
                && r != Decided(HOLD)
                && (U64_MAX < now + policy.lifetime || bytes == 0 || old(nextSequence) == U64_MAX)
      ensures r.Decided? && r.decision != HOLD ==>
                && r.decision.request.value.operation == operation && r.decision.request.value.bytes == bytes
                && r.decision.request.value.expires == now + policy.lifetime
    {
      if now <= state.lastIssued { return Decided(HOLD); }
      if BacksOff(retry, operation, monotonic, urgent) { return Decided(HOLD); }
      if U64_MAX < now + policy.lifetime { return Failed; }
      var request := Request(MEMORY_REQUEST_VERSION, Identity(vm, service, session, nextSequence), operation, bytes,
                             now,
                             now + policy.lifetime);
      if !request.Valid() || nextSequence == U64_MAX { return Failed; }
      nextSequence := nextSequence + 1;
      state := GuestState(Some(request), now);
      return Decided(Decision(Some(request), true, None));
    }

    /** Plan from a fresh estimate, and issue what is planned. */
    method Propose(sample: Estimation.Sample, device: VirtioMemState, estimate: Estimation.TargetEstimate, urgent: bool)
      returns (r: Polled)
      requires Settled() && state.pending.None? && device.Converged()
      modifies this`state, this`nextSequence
      ensures Settled() && Decides(old(state), old(nextSequence), sample.observed, None, r)
      ensures r.Failed? ==> state == old(state)
      ensures Proposed(policy, nativeLow, estimate, device, old(state), old(nextSequence), retry, sample, urgent, r)
    {
      PlansExactlyWhatIsDue(policy, nativeLow, estimate, device, Add, 0);
      var plan := PlanFor(policy, nativeLow, estimate, device);
      if plan.Invalid? { return Failed; }
      if plan.Hold? { return Decided(HOLD); }
      r := Issue(plan.operation, plan.bytes, sample.monotonic, sample.observed, urgent);
    }

    /** One poll: sample, then either wait for the pending request's result or plan
        the next request. Every removal is backed by a full window of High polls
        and leaves both reserves for its samples. */
    method Poll(sample: Estimation.Sample, status: Option<HostStatus>)
      returns (r: Polled, ghost estimate: Option<Estimation.TargetEstimate>)
      requires Valid()
      modifies this`state, this`nextSequence, this`retry, this`retryDelay, this`nativeLow, this`numericCritical,
               estimator
      ensures r.Failed? ==> state == old(state) && Shows(policy, Usable(status), sample.observed)
      ensures r.Failed? && (estimate.None? || old(state).pending.Some?) ==>
                || old(CannotEstimate(estimator, sample, Usable(status).value.device))
                || Estimation.Overflows(estimator.history, policy.target.hysteresis)
      ensures estimate.Some? ==> Usable(status).Some? && Measured(estimator, sample, Usable(status).value.device)
      ensures r.Decided? ==>
              Valid() && estimator.minRam == old(estimator.minRam)
              && estimator.maxRam == old(estimator.maxRam)
      ensures Decides(old(state), old(nextSequence), sample.observed, Usable(status), r)
      ensures nativeLow == (sample.pressure == Some(Estimation.Low))
      ensures numericCritical <==>
                || sample.memory.physicalAvailable < policy.target.floorPhysicalReserve
                || sample.memory.commitLimit < sample.memory.commitTotal + policy.target.floorCommitReserve
      ensures r.Decided? ==>
                && Noted(policy, Usable(status), sample, old(estimator.log), estimator.log)
                && (estimate.Some? <==> Shows(policy, Usable(status), sample.observed))
                && (estimate.Some? ==> Backs(estimator, estimate.value, sample.monotonic))
      ensures r.Decided? && estimate.Some? ==>
                DueIsJustified(policy, nativeLow, estimator, estimate.value, Usable(status).value.device,
                               sample.monotonic)
      ensures old(state).pending.None? && r.Decided? && estimate.None? ==> r == Decided(HOLD)
      ensures old(state).pending.None? && estimate.Some? ==>
                && Usable(status).Some?
                && Proposed(policy, nativeLow, estimate.value, Usable(status).value.device, old(state),
                            old(nextSequence), retry, sample,
                            (nativeLow && !old(nativeLow)) || (numericCritical && !old(numericCritical)), r)
    {
      var urgent := (sample.pressure == Some(Estimation.Low) && !nativeLow) || (Critical(sample) && !numericCritical);
      nativeLow, numericCritical := sample.pressure == Some(Estimation.Low), Critical(sample);
      r, estimate := Sampled(sample, Usable(status), urgent);
    }

    /** The poll once the sample's pressure is noted: observe, then decide. */
    method Sampled(sample: Estimation.Sample, usable: Option<HostStatus>, urgent: bool)
      returns (r: Polled, ghost estimate: Option<Estimation.TargetEstimate>)
      requires Valid()
      modifies this`state, this`nextSequence, this`retry, this`retryDelay, estimator
      ensures r.Failed? ==> state == old(state) && Shows(policy, usable, sample.observed)
      ensures r.Failed? && (estimate.None? || old(state).pending.Some?) ==>
                || old(CannotEstimate(estimator, sample, usable.value.device))
                || Estimation.Overflows(estimator.history, policy.target.hysteresis)
      ensures estimate.Some? ==> usable.Some? && Measured(estimator, sample, usable.value.device)
      ensures r.Decided? ==>
              Valid() && estimator.minRam == old(estimator.minRam)
              && estimator.maxRam == old(estimator.maxRam)
      ensures Decides(old(state), old(nextSequence), sample.observed, usable, r)
      ensures r.Decided? ==>
                && Noted(policy, usable, sample, old(estimator.log), estimator.log)
                && (estimate.Some? <==> Shows(policy, usable, sample.observed))
                && (estimate.Some? ==> Backs(estimator, estimate.value, sample.monotonic))
      ensures r.Decided? && estimate.Some? ==>
                DueIsJustified(policy, nativeLow, estimator, estimate.value, usable.value.device, sample.monotonic)
      ensures old(state).pending.None? && r.Decided? && estimate.None? ==> r == Decided(HOLD)
      ensures old(state).pending.None? && estimate.Some? ==>
                && usable.Some?
                && Proposed(policy, nativeLow, estimate.value, usable.value.device, old(state), old(nextSequence),
                            retry, sample, urgent, r)
    {
      estimate := None;
      var estimated := Observe(sample, SightingOf(usable, sample.observed));
      if estimated.None? {
        r := Failed;
      } else {
        estimate := estimated.value;
        if estimate.Some? {
          WhatIsDueIsJustified(policy, nativeLow, estimator, estimate.value, usable.value.device, sample.monotonic);
        }
        r := Proceed(sample, usable, estimated.value, urgent);
      }
    }

    /** With the sample taken: wait for the pending request, or propose the next. */
    method Proceed(sample: Estimation.Sample, usable: Option<HostStatus>, estimate: Option<Estimation.TargetEstimate>,
                   urgent: bool)
      returns (r: Polled)
      requires Settled() && (estimate.Some? ==> usable.Some? && usable.value.device.Converged())
      modifies this`state, this`nextSequence, this`retry, this`retryDelay
      ensures Settled() && Decides(old(state), old(nextSequence), sample.observed, usable, r)
      ensures r.Failed? ==> state == old(state) && estimate.Some? && old(state).pending.None?
      ensures old(state).pending.None? && estimate.None? ==> r == Decided(HOLD)
      ensures old(state).pending.None? && estimate.Some? ==>
                Proposed(policy, nativeLow, estimate.value, usable.value.device, old(state), old(nextSequence), retry,
                         sample, urgent, r)
    {
      if state.pending.Some? {
        r := Await(sample.monotonic, sample.observed, usable);
      } else if estimate.None? {
        r := Decided(HOLD);
      } else {
        r := Propose(sample, usable.value.device, estimate.value, urgent);
      }
    }

    predicate Critical(sample: Estimation.Sample) {
      || sample.memory.physicalAvailable < policy.target.floorPhysicalReserve
      || SatSub(sample.memory.commitLimit, sample.memory.commitTotal) < policy.target.floorCommitReserve
    }

    function Usable(status: Option<HostStatus>): (usable: Option<HostStatus>)
      ensures usable == if status.Some? && Credible(vm, service, status.value) then status else None
    {
      if status.Some? && status.value.ValidFor(vm, service) then status else None
    }

    function SightingOf(usable: Option<HostStatus>, now: U64): (sighting: Sighting)
      ensures sighting.At? <==> Shows(policy, usable, now)
      ensures sighting.At? ==> sighting.device == usable.value.device
      ensures sighting.Converging? <==> Recent(policy, usable, now) && !Shows(policy, usable, now)
    {
      if usable.None? || !usable.value.FreshAt(now, policy.statusMaxAge) then Unusable
      else if usable.value.device.Converged() then At(usable.value.device)
      else Converging
    }
  }
}
