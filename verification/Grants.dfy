/** How much of a request the host executes, and how far it pushes a removal
    that the guest's driver has stalled. */
module Grants {
  import opened Arithmetic
  import opened Device
  import opened Requests
  import opened Checkpoint
  import opened HostProtocol
  import opened Wrappers

  const GROW_ADMISSION_MARGIN_BYTES: U64 := 0x1000_0000
  const MAX_EXTENSION_BYTES: U64 := 0x1000_0000

  /** What a grant may not exceed, besides the bytes asked for. */
  function GuestRoom(config: HostConfig, baseRam: U64, state: VirtioMemState): U64 {
    SatSub(SatSub(config.maxRam, baseRam), state.current)
  }

  function DeviceRoom(state: VirtioMemState): U64 { SatSub(state.MaximumTarget(), state.current) }

  function PoolRoom(ceiling: Option<U64>, state: VirtioMemState): U64 {
    if ceiling.Some? then SatSub(ceiling.value, state.current) else U64_MAX
  }

  function HostRoom(config: HostConfig, available: U64, committed: U64): U64 {
    SatSub(SatSub(SatSub(available, committed), config.headroom), GROW_ADMISSION_MARGIN_BYTES)
  }

  function AddGrant(
    config: HostConfig, request: Request, state: VirtioMemState, baseRam: U64,
    ceiling: Option<U64>, available: U64, committed: U64): (grant: U64)
    requires state.Valid()
  {
    var free := Min(Min(Min(Min(request.bytes, GuestRoom(config, baseRam, state)), DeviceRoom(state)),
                        PoolRoom(ceiling, state)), HostRoom(config, available, committed));
    AlignDown(free, state.block)
  }

  function RemoveGrant(config: HostConfig, request: Request, state: VirtioMemState, baseRam: U64): (grant: U64)
    requires state.Valid()
  {
    AlignDown(Min(request.bytes, SatSub(state.current, SatSub(config.minRam, baseRam))), state.block)
  }

  function Grant(
    config: HostConfig, request: Request, state: VirtioMemState, baseRam: U64,
    ceiling: Option<U64>, available: U64, committed: U64): U64
    requires state.Valid()
  {
    match request.operation
    case Add => AddGrant(config, request, state, baseRam, ceiling, available, committed)
    case Remove => RemoveGrant(config, request, state, baseRam)
  }

  function GrantTarget(operation: Operation, state: VirtioMemState, grant: U64): int {
    match operation
    case Add => state.current + grant
    case Remove => state.current - grant
  }

  /** Growing by `bytes` keeps the guest's maximum, the device, the pool ceiling,
      and the host's reserve and margin beyond everything already committed. */
  ghost predicate MayGrow(
    config: HostConfig, request: Request, state: VirtioMemState, baseRam: U64,
    ceiling: Option<U64>, available: U64, committed: U64, bytes: int)
  {
    && 0 <= bytes <= request.bytes
    && baseRam + state.current + bytes <= config.maxRam
    && state.current + bytes <= state.size
    && (ceiling.Some? ==> state.current + bytes <= ceiling.value)
    && committed + bytes + config.headroom + GROW_ADMISSION_MARGIN_BYTES <= available
  }

  /** Releasing `bytes` keeps the guest's minimum. */
  ghost predicate MayShrink(config: HostConfig, request: Request, state: VirtioMemState, baseRam: U64, bytes: int) {
    && 0 <= bytes <= request.bytes
    && bytes <= state.current
    && config.minRam <= baseRam + state.current - bytes
  }

  /** The addition granted is the largest number of whole blocks that may be
      grown; nothing is granted exactly when not even one block may. */
  lemma AddGrantIsLargest(
    config: HostConfig, request: Request, state: VirtioMemState, baseRam: U64,
    ceiling: Option<U64>, available: U64, committed: U64, blocks: int)
    requires state.Valid()
    ensures
      var grant := AddGrant(config, request, state, baseRam, ceiling, available, committed);
      && grant % state.block == 0
      && (0 < grant ==> MayGrow(config, request, state, baseRam, ceiling, available, committed, grant))
      && (0 < blocks && MayGrow(config, request, state, baseRam, ceiling, available, committed,
                                blocks * state.block) ==>
            blocks * state.block <= grant)
      && state.ValidTarget(state.current + grant)
  {
    var grant := AddGrant(config, request, state, baseRam, ceiling, available, committed);
    MultiplesAdd(state.current, grant, state.block);
    MaximumTargetIsGreatest(state, 0);
    if 0 < blocks && MayGrow(config, request, state, baseRam, ceiling, available, committed, blocks * state.block) {
      ProductIsMultiple(blocks, state.block);
      MultipleWithin(blocks * state.block, state.block, grant,
        Min(Min(Min(Min(request.bytes, GuestRoom(config, baseRam, state)), DeviceRoom(state)),
                PoolRoom(ceiling, state)), HostRoom(config, available, committed)));
    }
  }

  lemma MultipleWithin(multiple: int, block: int, aligned: int, value: int)
    requires 0 < block && multiple % block == 0 && aligned % block == 0
    requires multiple <= value && value - aligned < block
    ensures multiple <= aligned
  {
    if aligned < multiple {
      MultiplesApart(aligned, multiple, block);
    }
  }

  /** The removal granted is the largest number of whole blocks that may be released. */
  lemma RemoveGrantIsLargest(config: HostConfig, request: Request, state: VirtioMemState, baseRam: U64, blocks: int)
    requires state.Valid()
    ensures
      var grant := RemoveGrant(config, request, state, baseRam);
      && grant % state.block == 0
      && (0 < grant ==> MayShrink(config, request, state, baseRam, grant))
      && (0 < blocks && MayShrink(config, request, state, baseRam, blocks * state.block) ==>
            blocks * state.block <= grant)
      && grant <= state.current && state.ValidTarget(state.current - grant)
  {
    var grant := RemoveGrant(config, request, state, baseRam);
    MultiplesAdd(state.current, grant, state.block);
    if 0 < blocks && MayShrink(config, request, state, baseRam, blocks * state.block) {
      ProductIsMultiple(blocks, state.block);
      MultipleWithin(blocks * state.block, state.block, grant,
        Min(request.bytes, SatSub(state.current, SatSub(config.minRam, baseRam))));
    }
  }

  /** Moving `bytes` in the direction asked for keeps every limit. */
  ghost predicate MayMove(
    config: HostConfig, request: Request, state: VirtioMemState, baseRam: U64,
    ceiling: Option<U64>, available: U64, committed: U64, bytes: int)
  {
    match request.operation
    case Add => MayGrow(config, request, state, baseRam, ceiling, available, committed, bytes)
    case Remove => MayShrink(config, request, state, baseRam, bytes)
  }

  /** `bytes` is the most whole blocks that may move. */
  ghost predicate MovesMost(
    config: HostConfig, request: Request, state: VirtioMemState, baseRam: U64,
    ceiling: Option<U64>, available: U64, committed: U64, bytes: int)
    requires 0 < state.block
  {
    && 0 < bytes && bytes % state.block == 0
    && MayMove(config, request, state, baseRam, ceiling, available, committed, bytes)
    && forall more: int {:trigger MayMove(config, request, state, baseRam, ceiling, available, committed, more)} ::
         more % state.block == 0 && MayMove(config, request, state, baseRam, ceiling, available, committed, more) ==>
           more <= bytes
  }

  /** Something is granted exactly if one block may move, and then the most that may. */
  lemma GrantIsLargest(
    config: HostConfig, request: Request, state: VirtioMemState, baseRam: U64,
    ceiling: Option<U64>, available: U64, committed: U64)
    requires state.Valid()
    ensures
      var grant := Grant(config, request, state, baseRam, ceiling, available, committed);
      && (0 < grant <==> MayMove(config, request, state, baseRam, ceiling, available, committed, state.block))
      && (0 < grant ==> MovesMost(config, request, state, baseRam, ceiling, available, committed, grant))
  {
    GrantBounds(config, request, state, baseRam, ceiling, available, committed, state.block);
    var grant := Grant(config, request, state, baseRam, ceiling, available, committed);
    if 0 < grant {
      MultiplesApart(0, grant, state.block);
    }
    forall more: int | more % state.block == 0
                       && MayMove(config, request, state, baseRam, ceiling, available, committed, more)
      ensures more <= grant
    {
      if 0 < more {
        GrantBounds(config, request, state, baseRam, ceiling, available, committed, more);
      }
    }
  }

  lemma GrantBounds(
    config: HostConfig, request: Request, state: VirtioMemState, baseRam: U64,
    ceiling: Option<U64>, available: U64, committed: U64, bytes: int)
    requires state.Valid() && 0 < bytes && bytes % state.block == 0
    ensures
      var grant := Grant(config, request, state, baseRam, ceiling, available, committed);
      && grant % state.block == 0
      && (0 < grant ==> MayMove(config, request, state, baseRam, ceiling, available, committed, grant))
      && (MayMove(config, request, state, baseRam, ceiling, available, committed, bytes) ==> bytes <= grant)
  {
    var blocks := bytes / state.block;
    assert bytes == blocks * state.block && 0 < blocks;
    match request.operation
    case Add => AddGrantIsLargest(config, request, state, baseRam, ceiling, available, committed, blocks);
    case Remove => RemoveGrantIsLargest(config, request, state, baseRam, blocks);
  }

  // ----- extending a stalled shrink -----

  /** The last extension: its operation, the allocation it started from, and its blocks. */
  datatype Extension = Extension(operation: nat, from: U64, blocks: nat)

  datatype ExtensionPlan = AtGoal | AtFloor | Lower(target: U64, blocks: nat)

  function ShrinkFloor(config: HostConfig, baseRam: U64, block: U64): U64
    requires 0 < block
  {
    Min(AlignUp(SatSub(config.minRam, baseRam), block), U64_MAX)
  }

  function ShrinkGoal(floor: U64, priorCurrent: U64, asked: U64, block: U64): U64
    requires 0 < block
  {
    Max(SatSub(priorCurrent, AlignDown(asked, block)), floor)
  }

  function NextBlocks(memo: Option<Extension>, operation: nat, current: U64, block: U64): nat
    requires 0 < block
  {
    if memo.Some? && memo.value.operation == operation
       && memo.value.blocks * block <= SatSub(memo.value.from, current)
    then Min(memo.value.blocks * 2, Max(MAX_EXTENSION_BYTES / block, 1))
    else 1
  }

  /** How far the next extension would lower the target. */
  function ExtensionStep(
    state: VirtioMemState, goal: U64, operation: nat, memo: Option<Extension>): nat
    requires state.Valid() && goal < state.current
  {
    Min(NextBlocks(memo, operation, state.current, state.block) * state.block,
        AlignUp(state.current - goal, state.block))
  }

  lemma QuotientIsNat(a: int, b: int)
    requires 0 <= a && 0 < b
    ensures 0 <= a / b
  {
  }

  lemma QuotientIsPositive(a: int, b: int)
    requires 0 < b <= a
    ensures 0 < a / b
  {
  }

  function PlanExtension(
    config: HostConfig, state: VirtioMemState, baseRam: U64, intent: Intent, asked: U64, memo: Option<Extension>
  ): ExtensionPlan
    requires state.Valid()
  {
    var block := state.block;
    var floor := ShrinkFloor(config, baseRam, block);
    var goal := ShrinkGoal(floor, intent.priorCurrent, asked, block);
    if state.current <= goal then AtGoal
    else
      var step := ExtensionStep(state, goal, intent.operation, memo);
      if step > state.requested || state.requested <= Max(state.requested - step, floor) then AtFloor
      else
        QuotientIsNat(step, block);
        Lower(Max(state.requested - step, floor), step / block)
  }

  /** An extension lowers the target by at least one and only whole blocks, not
      below the block-aligned guest minimum, and by no more than the allocation
      still is above the goal. */
  lemma ExtensionIsBounded(
    config: HostConfig, state: VirtioMemState, baseRam: U64, intent: Intent, asked: U64, memo: Option<Extension>)
    requires state.Valid() && PlanExtension(config, state, baseRam, intent, asked, memo).Lower?
    ensures
      var target := PlanExtension(config, state, baseRam, intent, asked, memo).target;
      var floor := ShrinkFloor(config, baseRam, state.block);
      var goal := ShrinkGoal(floor, intent.priorCurrent, asked, state.block);
      && floor <= target && target + state.block <= state.requested
      && state.ValidTarget(target)
      && config.minRam <= baseRam + target
      && goal < state.current
      && 0 < PlanExtension(config, state, baseRam, intent, asked, memo).blocks
      && (intent.priorCurrent % state.block == 0 ==> state.requested - target <= state.current - goal)
  {
    var block := state.block;
    var floor := ShrinkFloor(config, baseRam, block);
    var goal := ShrinkGoal(floor, intent.priorCurrent, asked, block);
    var step := ExtensionStep(state, goal, intent.operation, memo);
    var target := PlanExtension(config, state, baseRam, intent, asked, memo).target;
    StepIsAligned(state, goal, intent.operation, memo);
    MultiplesAdd(state.requested, step, block);
    MultiplesApart(target, state.requested, block);
    MultiplesApart(0, step, block);
    QuotientIsPositive(step, block);
    if intent.priorCurrent % block == 0 {
      GoalIsAligned(floor, intent.priorCurrent, asked, block);
      MultiplesAdd(state.current, goal, block);
    }
  }

  lemma StepIsAligned(state: VirtioMemState, goal: U64, operation: nat, memo: Option<Extension>)
    requires state.Valid() && goal < state.current
    ensures ExtensionStep(state, goal, operation, memo) % state.block == 0
  {
    ProductIsMultiple(NextBlocks(memo, operation, state.current, state.block), state.block);
  }

  lemma GoalIsAligned(floor: U64, priorCurrent: U64, asked: U64, block: U64)
    requires 0 < block && priorCurrent % block == 0 && floor % block == 0
    ensures ShrinkGoal(floor, priorCurrent, asked, block) % block == 0
  {
    MultiplesAdd(priorCurrent, AlignDown(asked, block), block);
  }

  /** A shrink short of its goal is held, for whatever earlier extension, exactly
      if its target is at the floor or the next step exceeds the target. Steps are
      whole positive blocks, so without an earlier extension only the floor holds it. */
  lemma ExtensionStopsExactlyAtFloorOrOversizedStep(
    config: HostConfig, state: VirtioMemState, baseRam: U64, intent: Intent, asked: U64, memo: Option<Extension>)
    requires state.Valid() && (memo.Some? ==> 0 < memo.value.blocks)
    requires ShrinkGoal(ShrinkFloor(config, baseRam, state.block), intent.priorCurrent, asked,
                        state.block) < state.current
    ensures
      var floor := ShrinkFloor(config, baseRam, state.block);
      var goal := ShrinkGoal(floor, intent.priorCurrent, asked, state.block);
      var step := ExtensionStep(state, goal, intent.operation, memo);
      && state.block <= step
      && (PlanExtension(config, state, baseRam, intent, asked, memo).AtFloor? <==>
          state.requested <= floor || state.requested < step)
      && (memo.None? ==> (state.requested < step ==> state.requested <= floor))
  {
    var block := state.block;
    var goal := ShrinkGoal(ShrinkFloor(config, baseRam, block), intent.priorCurrent, asked, block);
    MultiplesApart(0, AlignUp(state.current - goal, block), block);
    ProductGrows(1, NextBlocks(memo, intent.operation, state.current, block), block);
    if 0 < state.requested {
      MultiplesApart(0, state.requested, block);
    }
  }

  /** The floor is the least whole number of blocks that keeps the guest's minimum, or
      beyond every size if there is none. */
  lemma FloorIsLeast(config: HostConfig, baseRam: U64, block: U64, size: U64)
    requires 0 < block
    ensures
      var floor := ShrinkFloor(config, baseRam, block);
      && config.minRam <= baseRam + floor && (floor < U64_MAX ==> floor % block == 0)
      && (size % block == 0 && config.minRam <= baseRam + size ==> floor <= size)
  {
    var needed := SatSub(config.minRam, baseRam);
    if size % block == 0 && needed <= size < AlignUp(needed, block) {
      MultiplesApart(size, AlignUp(needed, block), block);
    }
  }

  /** A shrink has reached its goal exactly if it is at the floor, or one block more
      would be more than was asked for. */
  lemma GoalIsExact(config: HostConfig, state: VirtioMemState, baseRam: U64, intent: Intent, asked: U64,
                    memo: Option<Extension>)
    requires state.Valid() && intent.priorCurrent % state.block == 0
    ensures PlanExtension(config, state, baseRam, intent, asked, memo).AtGoal? <==>
            || state.current <= ShrinkFloor(config, baseRam, state.block)
            || asked < intent.priorCurrent - (state.current - state.block)
  {
    var block, whole := state.block, AlignDown(asked, state.block);
    MultiplesAdd(intent.priorCurrent, whole, block);
    MultiplesAdd(intent.priorCurrent, state.current, block);
    if intent.priorCurrent - state.current < whole {
      MultiplesApart(intent.priorCurrent - state.current, whole, block);
    }
  }

  /** The next step is one block; but if the guest has followed the last one in full,
      twice that, up to the largest whole blocks of 256 MiB. It never goes further than
      the goal. */
  lemma StepIsExact(state: VirtioMemState, goal: U64, operation: nat, memo: Option<Extension>)
    requires state.Valid() && goal < state.current && (memo.Some? ==> 0 < memo.value.blocks)
    ensures
      var followed := && memo.Some? && memo.value.operation == operation
                      && memo.value.blocks * state.block + state.current <= memo.value.from;
      ExtensionStep(state, goal, operation, memo) ==
        if followed
        then Min(Min(2 * (memo.value.blocks * state.block), Max(AlignDown(0x1000_0000, state.block), state.block)),
                 AlignUp(state.current - goal, state.block))
        else state.block
  {
    var block := state.block;
    MultiplesApart(0, AlignUp(state.current - goal, block), block);
    if memo.Some? {
      ProductGrows(0, memo.value.blocks, block);
      MinTimes(memo.value.blocks * 2, Max(MAX_EXTENSION_BYTES / block, 1), block);
      assert (memo.value.blocks * 2) * block == 2 * (memo.value.blocks * block);
    }
    QuotientTimes(MAX_EXTENSION_BYTES, block);
  }

  lemma MinTimes(a: int, b: int, block: int)
    requires 0 < block
    ensures Min(a, b) * block == Min(a * block, b * block)
  {
    if a <= b {
      ProductGrows(a, b, block);
    } else {
      ProductGrows(b, a, block);
    }
  }

  lemma QuotientTimes(value: int, block: int)
    requires 0 <= value && 0 < block
    ensures Max(value / block, 1) * block == Max(AlignDown(value, block), block)
  {
    assert value / block * block == value - value % block;
    if 1 <= value / block {
      ProductGrows(1, value / block, block);
    } else {
      assert value < block;
    }
  }

  /** A shrink that goes on lowers its target by the step, but not below the floor. */
  lemma LoweringIsExact(config: HostConfig, state: VirtioMemState, baseRam: U64, intent: Intent, asked: U64,
                        memo: Option<Extension>)
    requires state.Valid() && PlanExtension(config, state, baseRam, intent, asked, memo).Lower?
    ensures
      var plan := PlanExtension(config, state, baseRam, intent, asked, memo);
      var floor := ShrinkFloor(config, baseRam, state.block);
      var goal := ShrinkGoal(floor, intent.priorCurrent, asked, state.block);
      var step := ExtensionStep(state, goal, intent.operation, memo);
      plan.target == Max(state.requested - step, floor) && plan.blocks * state.block == step
  {
    var floor := ShrinkFloor(config, baseRam, state.block);
    var goal := ShrinkGoal(floor, intent.priorCurrent, asked, state.block);
    StepIsAligned(state, goal, intent.operation, memo);
    WholeQuotient(ExtensionStep(state, goal, intent.operation, memo), state.block);
  }

  lemma WholeQuotient(value: int, block: int)
    requires 0 < block && value % block == 0
    ensures value / block * block == value
  {
  }

  /** A removal of 60 of 64 MiB that stalls, moves one block, stalls, moves two and
      stalls again. From the grant on every step is the one planned, and the last,
      doubled, exceeds the 1 MiB still requested: it is taken for the floor, which
      is 1 MiB further down, and the poll is skipped. */
  lemma DoubledStepMaySkipAPoll(config: HostConfig, baseRam: U64, request: Request)
    requires config.minRam <= baseRam
    requires request.operation.Remove? && request.bytes == 60 * MIN_BLOCK_SIZE_BYTES
    ensures
      var mib: U64 := MIN_BLOCK_SIZE_BYTES;
      var start := VirtioMemState(64 * mib, mib, 64 * mib, 64 * mib);
      var intent := Intent(1, 0, Shrink, 64 * mib, 64 * mib, 4 * mib);
      var first := start.(requested := 4 * mib, current := 50 * mib);
      var second := start.(requested := 3 * mib, current := 49 * mib);
      var third := start.(requested := mib, current := 47 * mib);
      && start.Valid() && first.Valid() && second.Valid() && third.Valid()
      && GrantTarget(Remove, start, RemoveGrant(config, request, start, baseRam)) == intent.target
      && PlanExtension(config, first, baseRam, intent, request.bytes, None) == Lower(second.requested, 1)
      && PlanExtension(config, second, baseRam, intent.(target := second.requested), request.bytes,
                       Some(Extension(1, first.current, 1))) == Lower(third.requested, 2)
      && PlanExtension(config, third, baseRam, intent.(target := third.requested), request.bytes,
                       Some(Extension(1, second.current, 2))).AtFloor?
      && PlanExtension(config, third, baseRam, intent.(target := third.requested), request.bytes, None) == Lower(0, 1)
      && ShrinkFloor(config, baseRam, mib) == 0
  {
    MinimumBlockIsPowerOfTwo();
  }
}
