/** The virtio-mem device as the host and the guest read it. */
module Device {
  import opened Arithmetic

  const MIN_BLOCK_SIZE_BYTES: int := 0x10_0000

  datatype VirtioMemState = VirtioMemState(size: U64, block: U64, requested: U64, current: U64) {
    predicate Valid() {
      && 0 < size
      && MIN_BLOCK_SIZE_BYTES <= block
      && IsPowerOfTwo(block)
      && block <= size && size % block == 0
      && ValidValue(requested)
      && ValidValue(current)
    }

    predicate ValidValue(value: U64)
      requires 0 < block
    {
      value <= size && value % block == 0
    }

    predicate ValidTarget(target: U64) { Valid() && ValidValue(target) }

    predicate Converged() { requested == current }

    function MaximumTarget(): U64 { size - size % Max(block, 1) }
  }

  /** `MaximumTarget` is accepted, and nothing above it is. */
  lemma MaximumTargetIsGreatest(state: VirtioMemState, target: U64)
    requires state.Valid()
    ensures state.ValidTarget(state.MaximumTarget())
    ensures state.ValidTarget(target) ==> target <= state.MaximumTarget()
  {
    MultipleMinusRemainder(state.size, state.block);
  }

  lemma DoubledPower(n: int)
    requires IsPowerOfTwo(n)
    ensures IsPowerOfTwo(2 * n) && 0 < n
  {
  }

  lemma PowerTimes32(n: int)
    requires IsPowerOfTwo(n)
    ensures IsPowerOfTwo(32 * n)
  {
    DoubledPower(n);
    DoubledPower(2 * n);
    DoubledPower(4 * n);
    DoubledPower(8 * n);
    DoubledPower(16 * n);
  }

  lemma MinimumBlockIsPowerOfTwo()
    ensures IsPowerOfTwo(MIN_BLOCK_SIZE_BYTES)
  {
    PowerTimes32(1);
    PowerTimes32(32);
    PowerTimes32(32 * 32);
    PowerTimes32(32 * 32 * 32);
  }
}
