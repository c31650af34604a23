/** The guest's target estimator: what memory it wants now, and a bucketed,
    pruned history that stands in for every sample of the last window. */
module Estimation {
  import opened Arithmetic
  import opened Text
  import opened Wrappers

  const MAX_TARGET_HISTORY_ENTRIES: nat := 4096

  datatype Pressure = Low | Neutral | High

  datatype Policy = Policy(
    configuredMinimum: U64,
    physicalReserve: U64,
    commitReserve: U64,
    floorPhysicalReserve: U64,
    floorCommitReserve: U64,
    window: U64,
    maximumGap: U64,
    hysteresis: U64
  ) {
    predicate Valid() {
      && 0 < physicalReserve && 0 < commitReserve && 0 < floorPhysicalReserve && 0 < floorCommitReserve
      && 0 < window && 0 < maximumGap && 0 < hysteresis
      && floorPhysicalReserve <= physicalReserve && floorCommitReserve <= commitReserve
    }
  }

  datatype Geometry = Geometry(size: U64, block: U64, current: U64)

  datatype Memory = Memory(
    physicalTotal: U64,
    physicalAvailable: U64,
    load: nat,
    commitTotal: U64,
    commitLimit: U64,
    commitPeak: U64
  ) {
    predicate Valid() {
      && 0 < physicalTotal && 0 < commitLimit
      && physicalAvailable <= physicalTotal
      && commitTotal <= commitLimit
      && commitTotal <= commitPeak
      && load <= 100
    }
  }

  datatype Sample = Sample(
    session: string,
    observed: U64,
    monotonic: U64,
    sequence: U64,
    memory: Memory,
    pressure: Option<Pressure>
  )

  datatype Failure = InvalidPolicy | InvalidGeometry | ArithmeticOverflow | InvalidOrdering | InvalidTelemetry

  datatype Outcome<T> = Ok(value: T) | Err(error: Failure)

  datatype Instant = Instant(desired: U64, floor: U64, maximum: U64, capacityLimited: bool)

  datatype TargetEstimate = TargetEstimate(
    desired: U64,
    safeFloor: U64,
    desiredNow: U64,
    floorNow: U64,
    maximum: U64,
    historyReady: bool,
    capacityLimited: bool
  )

  function CheckedAlignUp(value: U64, block: U64): Option<U64>
    requires 0 < block
  {
    if AlignUp(value, block) <= U64_MAX then Some(AlignUp(value, block)) else None
  }

  /** The aligned usable ceiling, if policy and geometry are acceptable. */
  function EffectiveMaximum(policy: Policy, geometry: Geometry): Outcome<U64> {
    if !policy.Valid() then Err(InvalidPolicy)
    else if geometry.size == 0 || !IsPowerOfTwo(geometry.block) then Err(InvalidGeometry)
    else if geometry.block <= 0 || geometry.current % geometry.block != 0 then Err(InvalidGeometry)
    else
      var maximum := AlignDown(geometry.size, geometry.block);
      if maximum < policy.configuredMinimum || policy.configuredMinimum % geometry.block != 0
         || maximum < geometry.current then Err(InvalidGeometry)
      else if policy.physicalReserve % geometry.block != 0 || policy.commitReserve % geometry.block != 0
              || policy.floorPhysicalReserve % geometry.block != 0 || policy.floorCommitReserve % geometry.block != 0
              || policy.hysteresis % geometry.block != 0 then Err(InvalidGeometry)
      else Ok(maximum)
  }

  /** The device size that keeps both reserves for one reading. */
  function Candidate(memory: Memory, current: U64, base: U64, physicalReserve: U64, commitReserve: U64): Option<U64> {
    if memory.physicalTotal < memory.physicalAvailable || memory.commitLimit < memory.commitTotal then None
    else
      var used := memory.physicalTotal - memory.physicalAvailable;
      var headroom := memory.commitLimit - memory.commitTotal;
      if U64_MAX < used + physicalReserve || U64_MAX < current + commitReserve then None
      else Some(Max(SatSub(used + physicalReserve, base), SatSub(current + commitReserve, headroom)))
  }

  function Instantaneous(policy: Policy, memory: Memory, geometry: Geometry): (r: Outcome<Instant>)
    ensures r.Ok? ==> 0 < geometry.block && geometry.current <= memory.physicalTotal
  {
    var maximum := EffectiveMaximum(policy, geometry);
    if maximum.Err? then Err(maximum.error)
    else if !memory.Valid() then Err(InvalidTelemetry)
    else if memory.physicalTotal < geometry.current then Err(InvalidGeometry)
    else
      var base := memory.physicalTotal - geometry.current;
      var desired := Candidate(memory, geometry.current, base, policy.physicalReserve, policy.commitReserve);
      var floor := Candidate(memory, geometry.current, base, policy.floorPhysicalReserve, policy.floorCommitReserve);
      if desired.None? || floor.None? then Err(ArithmeticOverflow)
      else
        var desiredRaw := Max(desired.value, policy.configuredMinimum);
        var floorRaw := Max(floor.value, policy.configuredMinimum);
        var desiredUp := CheckedAlignUp(Min(desiredRaw, maximum.value), geometry.block);
        var floorUp := CheckedAlignUp(Min(floorRaw, maximum.value), geometry.block);
        if desiredUp.None? || floorUp.None? then Err(ArithmeticOverflow)
        else
          var desiredNow := Min(desiredUp.value, maximum.value);
          Ok(Instant(desiredNow, Min(floorUp.value, desiredNow), maximum.value, maximum.value < desiredRaw))
  }

  function Clamp(value: U64, low: U64, high: U64): U64 { Min(Max(value, low), high) }

  /** The instantaneous target within the administrator's total-RAM limits. */
  function Limited(instant: Instant, base: U64, block: U64, minRam: U64, maxRam: U64): Outcome<Instant>
    requires 0 < block
  {
    var minimum := CheckedAlignUp(SatSub(minRam, base), block);
    if minimum.None? then Err(ArithmeticOverflow)
    else
      var maximum := Min(AlignDown(SatSub(maxRam, base), block), instant.maximum);
      if maximum < minimum.value || maxRam < base then Err(InvalidGeometry)
      else Ok(instant.(maximum := maximum,
                       desired := Clamp(instant.desired, minimum.value, maximum),
                       floor := Clamp(instant.floor, minimum.value, maximum)))
  }

  /** One reading, and the device size it was taken at. */
  datatype Reading = Reading(memory: Memory, current: U64, base: U64)

  /** Had the device been `size` bytes at this reading, so much would have been free:
      used memory stays used, and the commit limit moves with the size. */
  predicate Leaves(reading: Reading, physical: U64, commit: U64, size: U64) {
    var used := reading.memory.physicalTotal - reading.memory.physicalAvailable;
    var headroom := reading.memory.commitLimit - reading.memory.commitTotal;
    && physical <= reading.base + size - used
    && commit <= headroom + size - reading.current
  }

  predicate ReservesKept(policy: Policy, reading: Reading, size: U64) {
    Leaves(reading, policy.physicalReserve, policy.commitReserve, size)
  }

  /** The limits on a device's size, besides what a reading asks for. */
  datatype Limits = Limits(size: U64, block: U64, minimum: U64, minRam: U64, maxRam: U64) {
    /** A size the device and the administrator's limit on total RAM allow. */
    predicate Allows(base: U64, bytes: U64) {
      0 < block && bytes % block == 0 && bytes <= size && base + bytes <= maxRam
    }

    /** Some allowed size keeps the administrator's minimum of total RAM. */
    ghost predicate HasRoom(base: U64) {
      exists bytes: U64 :: Allows(base, bytes) && minRam <= base + bytes
    }

    /** A whole number of blocks, not below either minimum, that leaves so much free. */
    predicate Enough(reading: Reading, physical: U64, commit: U64, bytes: U64) {
      && 0 < block && bytes % block == 0 && minimum <= bytes && minRam <= reading.base + bytes
      && Leaves(reading, physical, commit, bytes)
    }

    /** `bytes` is the least allowed size that is enough, or the greatest allowed
        size if none is. */
    ghost predicate LeastEnough(reading: Reading, physical: U64, commit: U64, maximum: U64, bytes: U64) {
      && bytes <= maximum && 0 < block && bytes % block == 0
      && (forall other: U64 :: other <= maximum && Enough(reading, physical, commit, other) ==> bytes <= other)
      && (bytes < maximum ==> Enough(reading, physical, commit, bytes))
    }

    /** `maximum` is the greatest allowed size. */
    ghost predicate Greatest(base: U64, maximum: U64) {
      Allows(base, maximum) && forall other: U64 :: Allows(base, other) ==> other <= maximum
    }
  }

  function LimitsOf(policy: Policy, geometry: Geometry, minRam: U64, maxRam: U64): Limits {
    Limits(geometry.size, geometry.block, policy.configuredMinimum, minRam, maxRam)
  }

  /** The target of a reading is no larger than it has to be: the desired size and
      the floor are the least sizes that keep their reserves, as far as the greatest
      allowed size goes, and it is called limited by capacity exactly if the device
      has no size that keeps the reserves. */
  ghost predicate IsLeast(policy: Policy, reading: Reading, limits: Limits, target: Instant) {
    && limits.Greatest(reading.base, target.maximum)
    && limits.LeastEnough(reading, policy.physicalReserve, policy.commitReserve, target.maximum, target.desired)
    && limits.LeastEnough(reading, policy.floorPhysicalReserve, policy.floorCommitReserve, target.maximum, target.floor)
    && (target.capacityLimited <==>
          forall size: U64 :: size <= limits.size && 0 < limits.block && size % limits.block == 0 ==>
            !ReservesKept(policy, reading, size))
  }

  /** A size leaves so much free exactly from the candidate on. */
  lemma CandidateIsExact(reading: Reading, physical: U64, commit: U64, size: U64)
    requires Candidate(reading.memory, reading.current, reading.base, physical, commit).Some?
    ensures Leaves(reading, physical, commit, size) <==>
            Candidate(reading.memory, reading.current, reading.base, physical, commit).value <= size
  {
  }

  /** Aligning the larger of candidate and minimum, and clamping it, gives the least
      size that is enough. */
  lemma ClampedIsLeast(limits: Limits, reading: Reading, physical: U64, commit: U64, deviceMaximum: U64,
                       lowest: U64, maximum: U64, aligned: U64)
    requires 0 < limits.block
    requires Candidate(reading.memory, reading.current, reading.base, physical, commit).Some?
    requires
      var raw := Max(Candidate(reading.memory, reading.current, reading.base, physical, commit).value, limits.minimum);
      aligned == Min(AlignUp(Min(raw, deviceMaximum), limits.block), deviceMaximum)
    requires deviceMaximum % limits.block == 0 && maximum % limits.block == 0 && maximum <= deviceMaximum
    requires lowest == AlignUp(SatSub(limits.minRam, reading.base), limits.block) && lowest <= maximum
    ensures limits.LeastEnough(reading, physical, commit, maximum, Clamp(aligned, lowest, maximum))
  {
    var block := limits.block;
    var bytes := Clamp(aligned, lowest, maximum);
    var raw := Max(Candidate(reading.memory, reading.current, reading.base, physical, commit).value, limits.minimum);
    CandidateIsExact(reading, physical, commit, bytes);
    forall other: U64 | other <= maximum && limits.Enough(reading, physical, commit, other)
      ensures bytes <= other
    {
      CandidateIsExact(reading, physical, commit, other);
      UpIsLeast(raw, block, other);
      UpIsLeast(SatSub(limits.minRam, reading.base), block, other);
    }
  }

  lemma UpIsLeast(value: U64, block: U64, multiple: U64)
    requires 0 < block && multiple % block == 0 && value <= multiple
    ensures AlignUp(value, block) <= multiple
  {
    if multiple < AlignUp(value, block) {
      MultiplesApart(multiple, AlignUp(value, block), block);
    }
  }

  lemma DownIsGreatest(value: U64, block: U64, multiple: U64)
    requires 0 < block && multiple % block == 0 && multiple <= value
    ensures multiple <= AlignDown(value, block)
  {
    if AlignDown(value, block) < multiple {
      MultiplesApart(AlignDown(value, block), multiple, block);
    }
  }

  /** The least size that keeps the reserves, as far as the limits allow: an
      unlimited target keeps them, and a size keeps them exactly from the
      candidate on. */
  lemma TargetKeepsReserves(
    policy: Policy, memory: Memory, geometry: Geometry, base: U64, minRam: U64, maxRam: U64, limited: Instant,
    size: U64)
    requires Instantaneous(policy, memory, geometry).Ok? && geometry.current + base == memory.physicalTotal
    requires Limited(Instantaneous(policy, memory, geometry).value, base, geometry.block, minRam, maxRam) == Ok(limited)
    ensures
      var candidate := Candidate(memory, geometry.current, base, policy.physicalReserve, policy.commitReserve);
      && candidate.Some?
      && (ReservesKept(policy, Reading(memory, geometry.current, base), size) <==> candidate.value <= size)
      && (candidate.value <= limited.maximum && limited.desired <= size ==> candidate.value <= size)
      && limited.desired <= limited.maximum
  {
  }

  lemma UpIsMonotone(a: U64, b: U64, block: U64)
    requires 0 < block && a <= b
    ensures AlignUp(a, block) <= AlignUp(b, block)
  {
    if AlignUp(b, block) < AlignUp(a, block) {
      MultiplesApart(AlignUp(b, block), AlignUp(a, block), block);
    }
  }

  lemma FloorIsWithinDesired(policy: Policy, reading: Reading)
    requires policy.Valid()
    requires Candidate(reading.memory, reading.current, reading.base,
                       policy.physicalReserve, policy.commitReserve).Some?
    requires Candidate(reading.memory, reading.current, reading.base,
                       policy.floorPhysicalReserve, policy.floorCommitReserve).Some?
    ensures Candidate(reading.memory, reading.current, reading.base,
                      policy.floorPhysicalReserve, policy.floorCommitReserve).value
            <= Candidate(reading.memory, reading.current, reading.base,
                         policy.physicalReserve, policy.commitReserve).value
  {
  }

  /** Before the limits, both sizes are their candidates, aligned and clamped. */
  ghost predicate Aligned(policy: Policy, reading: Reading, geometry: Geometry, instant: Instant) {
    && 0 < geometry.block && policy.Valid()
    && var whole := AlignDown(geometry.size, geometry.block);
    && var desired := Candidate(reading.memory, reading.current, reading.base, policy.physicalReserve,
                                policy.commitReserve);
    && var floor := Candidate(reading.memory, reading.current, reading.base, policy.floorPhysicalReserve,
                              policy.floorCommitReserve);
    && desired.Some? && floor.Some? && instant.maximum == whole && policy.configuredMinimum <= whole
    && policy.configuredMinimum % geometry.block == 0
    && (instant.capacityLimited <==> whole < Max(desired.value, policy.configuredMinimum))
    && instant.desired == Min(AlignUp(Min(Max(desired.value, policy.configuredMinimum), whole), geometry.block), whole)
    && instant.floor == Min(AlignUp(Min(Max(floor.value, policy.configuredMinimum), whole), geometry.block), whole)
  }

  lemma InstantIsAligned(policy: Policy, memory: Memory, geometry: Geometry)
    requires Instantaneous(policy, memory, geometry).Ok?
    requires 0 < geometry.block && geometry.current <= memory.physicalTotal
    ensures Aligned(policy, Reading(memory, geometry.current, memory.physicalTotal - geometry.current), geometry,
                    Instantaneous(policy, memory, geometry).value)
  {
    var base, block := memory.physicalTotal - geometry.current, geometry.block;
    var whole, minimum := AlignDown(geometry.size, block), policy.configuredMinimum;
    FloorIsWithinDesired(policy, Reading(memory, geometry.current, base));
    var desired := Candidate(memory, geometry.current, base, policy.physicalReserve, policy.commitReserve).value;
    var floor := Candidate(memory, geometry.current, base, policy.floorPhysicalReserve,
                           policy.floorCommitReserve).value;
    LessStaysWithin(Max(floor, minimum), Max(desired, minimum), whole, block);
  }

  lemma LessStaysWithin(less: U64, more: U64, whole: U64, block: U64)
    requires 0 < block && less <= more
    ensures Min(AlignUp(Min(less, whole), block), Min(AlignUp(Min(more, whole), block), whole))
            == Min(AlignUp(Min(less, whole), block), whole)
  {
    UpIsMonotone(Min(less, whole), Min(more, whole), block);
  }

  lemma LimitedIsLeast(policy: Policy, reading: Reading, geometry: Geometry, minRam: U64, maxRam: U64, instant: Instant)
    requires Aligned(policy, reading, geometry, instant)
    requires Limited(instant, reading.base, geometry.block, minRam, maxRam).Ok?
    ensures IsLeast(policy, reading, LimitsOf(policy, geometry, minRam, maxRam),
                    Limited(instant, reading.base, geometry.block, minRam, maxRam).value)
  {
    var block, limits := geometry.block, LimitsOf(policy, geometry, minRam, maxRam);
    var target := Limited(instant, reading.base, block, minRam, maxRam).value;
    var lowest := AlignUp(SatSub(minRam, reading.base), block);
    var whole := AlignDown(geometry.size, block);
    ClampedIsLeast(limits, reading, policy.physicalReserve, policy.commitReserve, whole, lowest, target.maximum,
                   instant.desired);
    ClampedIsLeast(limits, reading, policy.floorPhysicalReserve, policy.floorCommitReserve, whole, lowest,
                   target.maximum, instant.floor);
    MaximumIsGreatest(limits, reading.base, whole, target.maximum);
    CapacityIsExact(policy, reading, limits, whole,
                    Candidate(reading.memory, reading.current, reading.base, policy.physicalReserve,
                              policy.commitReserve).value,
                    target.capacityLimited);
  }

  /** The target of a reading is the least that serves it. */
  lemma TargetIsLeast(policy: Policy, memory: Memory, geometry: Geometry, minRam: U64, maxRam: U64)
    requires Instantaneous(policy, memory, geometry).Ok?
    requires 0 < geometry.block && geometry.current <= memory.physicalTotal
    requires Limited(Instantaneous(policy, memory, geometry).value, memory.physicalTotal - geometry.current,
                     geometry.block, minRam, maxRam).Ok?
    ensures
      var base := memory.physicalTotal - geometry.current;
      IsLeast(policy, Reading(memory, geometry.current, base), LimitsOf(policy, geometry, minRam, maxRam),
              Limited(Instantaneous(policy, memory, geometry).value, base, geometry.block, minRam, maxRam).value)
  {
    InstantIsAligned(policy, memory, geometry);
    LimitedIsLeast(policy, Reading(memory, geometry.current, memory.physicalTotal - geometry.current), geometry,
                   minRam, maxRam, Instantaneous(policy, memory, geometry).value);
  }

  lemma MaximumIsGreatest(limits: Limits, base: U64, whole: U64, maximum: U64)
    requires 0 < limits.block && whole == AlignDown(limits.size, limits.block) && base <= limits.maxRam
    requires maximum == Min(AlignDown(SatSub(limits.maxRam, base), limits.block), whole)
    ensures limits.Greatest(base, maximum)
  {
    forall other: U64 | limits.Allows(base, other)
      ensures other <= maximum
    {
      DownIsGreatest(limits.size, limits.block, other);
      DownIsGreatest(SatSub(limits.maxRam, base), limits.block, other);
    }
  }

  lemma CapacityIsExact(policy: Policy, reading: Reading, limits: Limits, whole: U64, candidate: U64, limited: bool)
    requires 0 < limits.block && whole == AlignDown(limits.size, limits.block)
    requires limited <==> whole < candidate
    requires Candidate(reading.memory, reading.current, reading.base, policy.physicalReserve, policy.commitReserve)
             == Some(candidate)
    ensures limited <==>
            forall size: U64 :: size <= limits.size && 0 < limits.block && size % limits.block == 0 ==>
              !ReservesKept(policy, reading, size)
  {
    CandidateIsExact(reading, policy.physicalReserve, policy.commitReserve, whole);
    assert ReservesKept(policy, reading, whole) <==> !limited;
    forall size: U64 | size <= limits.size && 0 < limits.block && size % limits.block == 0
      ensures ReservesKept(policy, reading, size) ==> !limited
    {
      DownIsGreatest(limits.size, limits.block, size);
      CandidateIsExact(reading, policy.physicalReserve, policy.commitReserve, size);
    }
  }

  /** The device size one reading asks for, before any limit. */
  function Wanted(policy: Policy, reading: Reading): Option<U64> {
    Candidate(reading.memory, reading.current, reading.base, policy.physicalReserve, policy.commitReserve)
  }

  // ----- history: what was observed -----

  /** What one poll left behind: a successful estimate; nothing, because the
      device was still converging under High pressure; or a break in the evidence. */
  datatype Observation =
    | Taken(t: U64, session: string, high: bool, reading: Reading, target: Instant)
    | Idle
    | Lost

  ghost predicate Sound(o: Observation) {
    o.Taken? ==> o.target.desired <= o.target.maximum
  }

  /** No upper limit cut the sample's target short of what its reading wants. */
  ghost predicate Unlimited(policy: Policy, o: Observation) {
    o.Taken? && Wanted(policy, o.reading).Some? && Wanted(policy, o.reading).value <= o.target.maximum
  }

  /** Short of a limit, the target is at least what the reading wants. */
  ghost predicate Genuine(policy: Policy, o: Observation) {
    Unlimited(policy, o) ==> Wanted(policy, o.reading).value <= o.target.desired
  }

  ghost predicate AllGenuine(policy: Policy, run: seq<Observation>) {
    forall i {:trigger Genuine(policy, run[i])} :: 0 <= i < |run| ==> Genuine(policy, run[i])
  }

  /** `next` directly extends the evidence up to `last`. */
  predicate Continues(last: Observation, next: Observation, gap: U64) {
    && last.Taken? && next.Taken? && last.high && next.high
    && last.session == next.session
    && last.reading.base == next.reading.base
    && last.t < next.t <= last.t + gap
  }

  /** The current unbroken run: the samples up to now that directly extend one
      another, all High, of one session, over one visible base, without a gap. */
  function UnbrokenRun(log: seq<Observation>, gap: U64): seq<Observation> {
    if log == [] then []
    else
      var last, before := log[|log| - 1], UnbrokenRun(log[..|log| - 1], gap);
      match last
      case Idle => before
      case Lost => []
      case Taken(_, _, high, _, _) =>
        if !high then []
        else if before != [] && Continues(before[|before| - 1], last, gap) then before + [last]
        else [last]
  }

  ghost predicate Unbroken(run: seq<Observation>, gap: U64) {
    && (forall i :: 0 <= i < |run| ==> run[i].Taken? && run[i].high)
    && (forall i :: 0 < i < |run| ==> Linked(run, i, gap))
  }

  ghost predicate Linked(run: seq<Observation>, i: nat, gap: U64)
    requires 0 < i < |run|
  {
    Continues(run[i - 1], run[i], gap)
  }

  /** The samples of a stretch of polls. */
  function Samples(log: seq<Observation>): seq<Observation> {
    if log == [] then []
    else Samples(log[..|log| - 1]) + if log[|log| - 1].Taken? then [log[|log| - 1]] else []
  }

  /** Every poll of the stretch was High, and none lost the evidence. */
  ghost predicate AllHigh(log: seq<Observation>) {
    forall i :: 0 <= i < |log| ==> !log[i].Lost? && (log[i].Taken? ==> log[i].high)
  }

  lemma LinkedGrows(run: seq<Observation>, last: Observation, gap: U64)
    requires Unbroken(run, gap) && run != [] && Continues(run[|run| - 1], last, gap)
    ensures Unbroken(run + [last], gap)
  {
    forall i | 0 < i < |run| + 1
      ensures Linked(run + [last], i, gap)
    {
      assert i < |run| ==> Linked(run, i, gap);
    }
  }

  lemma {:induction false} RunIsLinked(log: seq<Observation>, gap: U64)
    ensures Unbroken(UnbrokenRun(log, gap), gap)
  {
    if log != [] {
      var most, last := log[..|log| - 1], log[|log| - 1];
      RunIsLinked(most, gap);
      var run := UnbrokenRun(most, gap);
      if run != [] && Continues(run[|run| - 1], last, gap) {
        LinkedGrows(run, last, gap);
      }
    }
  }

  /** The run is unbroken, and is every sample since the poll it began with: no
      poll since then was lost or not High. */
  lemma {:induction false} RunIsUnbroken(log: seq<Observation>, gap: U64) returns (from: nat)
    ensures Unbroken(UnbrokenRun(log, gap), gap)
    ensures from <= |log| && AllHigh(log[from..]) && UnbrokenRun(log, gap) == Samples(log[from..])
    ensures UnbrokenRun(log, gap) != [] ==> from < |log| && log[from] == UnbrokenRun(log, gap)[0]
  {
    RunIsLinked(log, gap);
    from := RunBegins(log, gap);
  }

  lemma {:induction false} RunBegins(log: seq<Observation>, gap: U64) returns (from: nat)
    ensures from <= |log| && AllHigh(log[from..]) && UnbrokenRun(log, gap) == Samples(log[from..])
    ensures UnbrokenRun(log, gap) != [] ==> from < |log| && log[from] == UnbrokenRun(log, gap)[0]
  {
    from := |log|;
    if log != [] {
      var most, last := log[..|log| - 1], log[|log| - 1];
      var before := RunBegins(most, gap);
      var run := UnbrokenRun(log, gap);
      if run == [last] && last.Taken? {
        from := |log| - 1;
        assert log[from..] == [last] && Samples([last]) == Samples([]) + [last];
      } else if run != [] {
        from := before;
        StretchGrows(log, before);
      }
    }
  }

  lemma StretchGrows(log: seq<Observation>, from: nat)
    requires from < |log|
    ensures
      var last := log[|log| - 1];
      && Samples(log[from..]) == Samples(log[..|log| - 1][from..]) + (if last.Taken? then [last] else [])
      && (AllHigh(log[from..]) <==>
          AllHigh(log[..|log| - 1][from..]) && !last.Lost? && (last.Taken? ==> last.high))
  {
    assert log[from..][..|log| - from - 1] == log[..|log| - 1][from..];
    assert log[from..] == log[..|log| - 1][from..] + [log[|log| - 1]];
  }

  lemma {:induction false} TimesIncrease(run: seq<Observation>, gap: U64, i: nat, j: nat)
    requires Unbroken(run, gap) && i < j < |run|
    ensures run[i].t < run[j].t
  {
    assert Linked(run, j, gap);
    if i < j - 1 {
      TimesIncrease(run, gap, i, j - 1);
    }
  }

  // ----- history: what is kept -----

  datatype Entry = Entry(t: U64, desired: U64, floor: U64)

  ghost function End(starts: seq<nat>, run: seq<Observation>, k: nat): nat {
    if k + 1 < |starts| then starts[k + 1] else |run|
  }

  /** The entry opens at the first of its samples, spans less than a bucket, and
      bounds the desired size and the floor of each of them. */
  ghost predicate Bounds(e: Entry, run: seq<Observation>, lo: nat, hi: nat, bucket: U64) {
    && lo < hi <= |run| && run[lo].Taken? && e.t == run[lo].t
    && forall i :: lo <= i < hi ==>
         run[i].Taken? && run[i].t < e.t + bucket && run[i].target.desired <= e.desired
             && run[i].target.floor <= e.floor
  }

  ghost predicate Covers(e: Entry, run: seq<Observation>, lo: nat, hi: nat, bucket: U64) {
    && Bounds(e, run, lo, hi, bucket)
    && (exists i :: lo <= i < hi && run[i].Taken? && run[i].target.desired == e.desired)
    && (exists i :: lo <= i < hi && run[i].Taken? && run[i].target.floor == e.floor)
  }

  /** Consecutive entries cover the run from `starts[0]` on, a bucket apart, with
      the largest desired size and the largest floor of each bucket. */
  ghost predicate Summarizes(history: seq<Entry>, starts: seq<nat>, run: seq<Observation>, bucket: U64) {
    && |starts| == |history| && (history == [] <==> run == [])
    && (forall k {:trigger Covers(history[k], run, starts[k], End(starts, run, k), bucket)} :: 0 <= k < |history| ==>
          Covers(history[k], run, starts[k], End(starts, run, k), bucket))
    && Spaced(history, bucket)
  }

  ghost predicate Spaced(history: seq<Entry>, bucket: U64) {
    forall i, j :: 0 <= i < j < |history| ==> history[i].t + bucket <= history[j].t
  }

  predicate Merges(history: seq<Entry>, t: U64, bucket: U64) {
    history != [] && SatSub(t, history[|history| - 1].t) < bucket
  }

  /** Merge into the last bucket, or open a new one. */
  function Appended(history: seq<Entry>, t: U64, target: Instant, bucket: U64): seq<Entry> {
    if Merges(history, t, bucket) then
      var last := history[|history| - 1];
      history[..|history| - 1] + [Entry(last.t, Max(last.desired, target.desired), Max(last.floor, target.floor))]
    else history + [Entry(t, target.desired, target.floor)]
  }

  lemma OpenSummarizes(history: seq<Entry>, starts: seq<nat>, run: seq<Observation>, next: Observation, bucket: U64)
    requires Summarizes(history, starts, run, bucket) && 0 < bucket && next.Taken?
    requires history != [] ==> history[|history| - 1].t + bucket <= next.t
    ensures Summarizes(history + [Entry(next.t, next.target.desired, next.target.floor)], starts + [|run|],
                       run + [next], bucket)
  {
    var e, run' := Entry(next.t, next.target.desired, next.target.floor), run + [next];
    var history', starts' := history + [e], starts + [|run|];
    forall k | 0 <= k < |history'|
      ensures Covers(history'[k], run', starts'[k], End(starts', run', k), bucket)
    {
      if k < |history| {
        assert Covers(history[k], run, starts[k], End(starts, run, k), bucket);
        LongerRunCovers(history[k], run, next, starts[k], End(starts, run, k), bucket);
      } else {
        OpenCovers(run, next, bucket);
      }
    }
  }

  lemma OpenCovers(run: seq<Observation>, next: Observation, bucket: U64)
    requires next.Taken? && 0 < bucket
    ensures Covers(Entry(next.t, next.target.desired, next.target.floor), run + [next], |run|, |run| + 1, bucket)
  {
    var run' := run + [next];
    assert run'[|run|].Taken? && run'[|run|].target.desired == next.target.desired
           && run'[|run|].target.floor == next.target.floor;
  }

  lemma MergeSummarizes(history: seq<Entry>, starts: seq<nat>, run: seq<Observation>, next: Observation, bucket: U64)
    requires Summarizes(history, starts, run, bucket) && next.Taken? && Merges(history, next.t, bucket)
    requires history[|history| - 1].t < next.t
    ensures Summarizes(Appended(history, next.t, next.target, bucket), starts, run + [next], bucket)
  {
    var last := |history| - 1;
    var merged := Entry(history[last].t, Max(history[last].desired, next.target.desired),
                        Max(history[last].floor, next.target.floor));
    var history', run' := history[last := merged], run + [next];
    assert Appended(history, next.t, next.target, bucket) == history';
    forall k | 0 <= k < |history'|
      ensures Covers(history'[k], run', starts[k], End(starts, run', k), bucket)
    {
      var hi := End(starts, run, k);
      assert Covers(history[k], run, starts[k], hi, bucket);
      if k < last {
        LongerRunCovers(history[k], run, next, starts[k], hi, bucket);
      } else {
        MergeCovers(history[last], run, next, starts[last], bucket);
      }
    }
  }

  lemma MergeCovers(e: Entry, run: seq<Observation>, next: Observation, lo: nat, bucket: U64)
    requires Covers(e, run, lo, |run|, bucket) && next.Taken? && next.t < e.t + bucket
    ensures Covers(Entry(e.t, Max(e.desired, next.target.desired), Max(e.floor, next.target.floor)),
                   run + [next], lo, |run| + 1, bucket)
  {
    var run' := run + [next];
    assert run'[|run|] == next;
    var i :| lo <= i < |run| && run[i].Taken? && run[i].target.desired == e.desired;
    var j :| lo <= j < |run| && run[j].Taken? && run[j].target.floor == e.floor;
    assert run'[if e.desired <= next.target.desired then |run| else i].target.desired ==
        Max(e.desired, next.target.desired);
    assert run'[if e.floor <= next.target.floor then |run| else j].target.floor == Max(e.floor, next.target.floor);
  }

  /** What an entry covers does not change as the run grows. */
  lemma LongerRunCovers(e: Entry, run: seq<Observation>, next: Observation, lo: nat, hi: nat, bucket: U64)
    requires Covers(e, run, lo, hi, bucket)
    ensures Covers(e, run + [next], lo, hi, bucket)
  {
    var run' := run + [next];
    var i :| lo <= i < hi && run[i].Taken? && run[i].target.desired == e.desired;
    assert run'[i].target.desired == e.desired;
    var j :| lo <= j < hi && run[j].Taken? && run[j].target.floor == e.floor;
    assert run'[j].target.floor == e.floor;
  }

  lemma DropSummarizes(history: seq<Entry>, starts: seq<nat>, run: seq<Observation>, bucket: U64, d: nat)
    requires Summarizes(history, starts, run, bucket) && d < |history|
    ensures Summarizes(history[d..], starts[d..], run, bucket)
  {
    forall k | 0 <= k < |history| - d
      ensures Covers(history[d..][k], run, starts[d..][k], End(starts[d..], run, k), bucket)
    {
      assert Covers(history[k + d], run, starts[k + d], End(starts, run, k + d), bucket);
    }
  }

  /** Drop what the window has left behind, keeping one entry at or before its edge. */
  method PruneHistory(history: seq<Entry>, now: U64, window: U64) returns (kept: seq<Entry>, ghost dropped: nat)
    ensures |kept| <= |history| && kept == history[|history| - |kept|..] && (history != [] ==> kept != [])
    ensures |kept| < |history| ==> kept[0].t <= SatSub(now, window)
    ensures 1 < |kept| ==> SatSub(now, window) < kept[1].t
    ensures dropped == |history| - |kept|
  {
    kept, dropped := history, 0;
    while 1 < |kept| && kept[1].t <= SatSub(now, window)
      invariant dropped <= |history| && kept == history[dropped..]
      invariant history != [] ==> dropped < |history|
      invariant 0 < dropped < |history| ==> history[dropped].t <= SatSub(now, window)
    {
      assert kept[1] == history[dropped + 1];
      kept, dropped := kept[1..], dropped + 1;
    }
  }

  function HistoryIsReady(history: seq<Entry>, now: U64, window: U64): bool {
    history != [] && window <= SatSub(now, history[0].t)
  }

  function MaxDesired(history: seq<Entry>): U64
    requires history != []
  {
    var last := |history| - 1;
    if last == 0 then history[0].desired else Max(MaxDesired(history[..last]), history[last].desired)
  }

  function MaxFloor(history: seq<Entry>): U64
    requires history != []
  {
    var last := |history| - 1;
    if last == 0 then history[0].floor else Max(MaxFloor(history[..last]), history[last].floor)
  }

  /** The maxima bound every entry and are attained. */
  lemma {:induction false} MaximaAreGreatest(history: seq<Entry>)
    requires history != []
    ensures forall k :: 0 <= k < |history| ==>
              history[k].desired <= MaxDesired(history) && history[k].floor <= MaxFloor(history)
    ensures exists k :: 0 <= k < |history| && history[k].desired == MaxDesired(history)
    ensures exists k :: 0 <= k < |history| && history[k].floor == MaxFloor(history)
  {
    var last := |history| - 1;
    if last == 0 {
      assert history[0].desired == MaxDesired(history) && history[0].floor == MaxFloor(history);
    } else {
      var most := history[..last];
      MaximaAreGreatest(most);
      var i :| 0 <= i < last && most[i].desired == MaxDesired(most);
      var j :| 0 <= j < last && most[j].floor == MaxFloor(most);
      assert history[if MaxDesired(most) <= history[last].desired then last else i].desired == MaxDesired(history);
      assert history[if MaxFloor(most) <= history[last].floor then last else j].floor == MaxFloor(history);
      forall k | 0 <= k < |history|
        ensures history[k].desired <= MaxDesired(history) && history[k].floor <= MaxFloor(history)
      {
        assert k < last ==> history[k] == most[k];
      }
    }
  }

  /** The bucket width that bounds the entries of one window. */
  function BucketMillis(window: U64): (bucket: U64)
    requires 0 < window
    ensures 0 < bucket && window <= bucket * (MAX_TARGET_HISTORY_ENTRIES - 2)
  {
    Max((window + MAX_TARGET_HISTORY_ENTRIES - 3) / (MAX_TARGET_HISTORY_ENTRIES - 2), 1)
  }

  function Capped(history: seq<Entry>): seq<Entry> {
    if |history| > MAX_TARGET_HISTORY_ENTRIES then history[1..] else history
  }

  // ----- what the kept history says about the window -----

  /** At most one entry starts at or before the edge of the window, and nothing
      was dropped that the window still reaches. */
  ghost predicate Trimmed(history: seq<Entry>, starts: seq<nat>, window: U64, now: U64) {
    && |starts| == |history|
    && (1 < |history| ==> SatSub(now, window) < history[1].t)
    && (history != [] && 0 < starts[0] ==> history[0].t + window <= now)
  }

  /** The unbroken run reaches back at least one window. */
  predicate SpansWindow(run: seq<Observation>, window: U64, now: U64) {
    run != [] && run[0].Taken? && run[0].t + window <= now
  }

  lemma {:induction false} EntriesSpread(history: seq<Entry>, bucket: U64, i: nat, j: nat)
    requires Spaced(history, bucket) && i <= j < |history|
    ensures history[i].t + (j - i) * bucket <= history[j].t
  {
    if i < j {
      EntriesSpread(history, bucket, i, j - 1);
      assert (j - i) * bucket == (j - 1 - i) * bucket + bucket;
    }
  }

  /** One more entry than a trimmed history holds is still within the cap, so the
      cap never drops an entry. */
  lemma HistoryStaysBelowCap(history: seq<Entry>, starts: seq<nat>, window: U64, now: U64)
    requires 0 < window && Spaced(history, BucketMillis(window)) && Trimmed(history, starts, window, now)
    requires history != [] ==> history[|history| - 1].t <= now
    ensures |history| < MAX_TARGET_HISTORY_ENTRIES
    ensures forall t, target :: Capped(Appended(history, t, target, BucketMillis(window)))
                                == Appended(history, t, target, BucketMillis(window))
  {
    var n, bucket := |history|, BucketMillis(window);
    if MAX_TARGET_HISTORY_ENTRIES <= n {
      EntriesSpread(history, bucket, 1, n - 1);
      ProductGrows(MAX_TARGET_HISTORY_ENTRIES - 2, n - 2, bucket);
    }
  }

  lemma StartsAreEntryTimes(history: seq<Entry>, starts: seq<nat>, run: seq<Observation>, bucket: U64, gap: U64)
    requires Summarizes(history, starts, run, bucket) && Unbroken(run, gap) && run != []
    ensures starts[0] < |run| && run[starts[0]].Taken? && history[0].t == run[starts[0]].t
    ensures run[0].Taken? && (if starts[0] == 0 then run[0].t == history[0].t else run[0].t < history[0].t)
  {
    assert Covers(history[0], run, starts[0], End(starts, run, 0), bucket);
    if 0 < starts[0] {
      TimesIncrease(run, gap, 0, starts[0]);
    }
  }

  /** The history is ready exactly when the unbroken run spans the window. */
  lemma ReadyExactlyWhenRunSpansWindow(
    history: seq<Entry>, starts: seq<nat>, run: seq<Observation>, bucket: U64, window: U64, gap: U64, now: U64)
    requires 0 < window && Summarizes(history, starts, run, bucket) && Unbroken(run, gap)
    requires run != [] ==> Trimmed(history, starts, window, now)
    ensures HistoryIsReady(history, now, window) <==> SpansWindow(run, window, now)
  {
    if run != [] {
      StartsAreEntryTimes(history, starts, run, bucket, gap);
    }
  }

  /** Which entry holds sample `i`. */
  lemma {:induction false} CoveringEntry(
    history: seq<Entry>, starts: seq<nat>, run: seq<Observation>, bucket: U64, i: nat, n: nat) returns (k: nat)
    requires Summarizes(history, starts, run, bucket) && 0 < n <= |history|
    requires starts[0] <= i < End(starts, run, n - 1)
    ensures k < |history| && starts[k] <= i < End(starts, run, k)
    decreases n
  {
    k := n - 1;
    assert Covers(history[k], run, starts[k], End(starts, run, k), bucket);
    if i < starts[k] {
      k := CoveringEntry(history, starts, run, bucket, i, n - 1);
    }
  }

  /** No sample the window still reaches wants more than the history's maximum. */
  lemma WindowIsCovered(
    history: seq<Entry>, starts: seq<nat>, run: seq<Observation>, bucket: U64, window: U64, gap: U64, now: U64, i: nat)
    requires 0 < window && Summarizes(history, starts, run, bucket) && Unbroken(run, gap)
    requires Trimmed(history, starts, window, now) && i < |run| && now <= run[i].t + window
    ensures history != []
    ensures run[i].target.desired <= MaxDesired(history) && run[i].target.floor <= MaxFloor(history)
  {
    var k := SampleIsCovered(history, starts, run, bucket, window, gap, now, i);
    MaximaAreGreatest(history);
  }

  lemma SampleIsCovered(
    history: seq<Entry>, starts: seq<nat>, run: seq<Observation>, bucket: U64, window: U64, gap: U64, now: U64, i: nat)
    returns (k: nat)
    requires 0 < window && Summarizes(history, starts, run, bucket) && Unbroken(run, gap)
    requires Trimmed(history, starts, window, now) && i < |run| && now <= run[i].t + window
    ensures k < |history|
    ensures run[i].target.desired <= history[k].desired && run[i].target.floor <= history[k].floor
  {
    StartsAreEntryTimes(history, starts, run, bucket, gap);
    if i < starts[0] {
      TimesIncrease(run, gap, i, starts[0]);
      assert false;
    } else {
      k := CoveringEntry(history, starts, run, bucket, i, |history|);
      assert Covers(history[k], run, starts[k], End(starts, run, k), bucket);
    }
  }

  /** ... and that maximum is no older than the window, one bucket and one gap. */
  lemma MaximumIsRecent(
    history: seq<Entry>, starts: seq<nat>, run: seq<Observation>, bucket: U64, window: U64, gap: U64,
    now: U64) returns (i: nat)
    requires 0 < window && Summarizes(history, starts, run, bucket) && Unbroken(run, gap)
    requires Trimmed(history, starts, window, now) && run != [] && run[|run| - 1].t == now
    ensures i < |run| && run[i].target.desired == MaxDesired(history)
    ensures now < run[i].t + window + bucket + gap
  {
    MaximaAreGreatest(history);
    var k :| 0 <= k < |history| && history[k].desired == MaxDesired(history);
    i := EntryIsRecent(history, starts, run, bucket, window, gap, now, k);
  }

  lemma EntryIsRecent(
    history: seq<Entry>, starts: seq<nat>, run: seq<Observation>, bucket: U64, window: U64, gap: U64, now: U64, k: nat)
    returns (i: nat)
    requires 0 < window && Summarizes(history, starts, run, bucket) && Unbroken(run, gap) && k < |history|
    requires Trimmed(history, starts, window, now) && run != [] && run[|run| - 1].t == now
    ensures i < |run| && run[i].target.desired == history[k].desired
    ensures now < run[i].t + window + bucket + gap
  {
    FirstEntryIsRecent(history, starts, run, bucket, window, gap, now);
    assert history[0].t <= history[k].t;
    assert Covers(history[k], run, starts[k], End(starts, run, k), bucket);
    i :| starts[k] <= i < End(starts, run, k) && run[i].Taken? && run[i].target.desired == history[k].desired;
    if starts[k] < i {
      TimesIncrease(run, gap, starts[k], i);
    }
  }

  lemma FirstEntryIsRecent(
    history: seq<Entry>, starts: seq<nat>, run: seq<Observation>, bucket: U64, window: U64, gap: U64, now: U64)
    requires 0 < window && Summarizes(history, starts, run, bucket) && Unbroken(run, gap)
    requires Trimmed(history, starts, window, now) && run != [] && run[|run| - 1].t == now
    ensures now < history[0].t + window + bucket + gap
  {
    assert Covers(history[0], run, starts[0], End(starts, run, 0), bucket);
    if 1 < |history| {
      assert Covers(history[1], run, starts[1], End(starts, run, 1), bucket);
      assert Linked(run, starts[1], gap);
    }
  }

  // ----- the estimator -----

  /** Raised at once to what the sample wants, cut to the maximum. */
  function Held(desired: U64, target: Instant): U64 { Min(Max(desired, target.desired), target.maximum) }

  /** The least size within the maximum that is not below what was desired or is wanted,
      if there is one. */
  lemma HeldIsLeast(desired: U64, target: Instant, size: U64)
    ensures
      var held := Held(desired, target);
      && held <= target.maximum && (held < target.maximum ==> Max(desired, target.desired) <= held)
      && (Max(desired, target.desired) <= size ==> held <= size)
  {
  }

  /** The desired size is `held`, or the history's maximum if that is lower by at
      least the hysteresis over a full window; the floor is within it. */
  ghost predicate Lowered(
    history: seq<Entry>, hysteresis: U64, held: U64, ready: bool, current: U64, desired: U64, safeFloor: U64)
  {
    && (ready ==> history != [] && !Overflows(history, hysteresis))
    && desired == (if ready && MaxDesired(history) + hysteresis <= held then MaxDesired(history) else held)
    && safeFloor == Min(if ready then MaxFloor(history) else current, desired)
  }

  /** A sample without a session, or one that does not advance within its session. */
  predicate Misordered(sample: Sample, session: string, lastSequence: U64, lastMonotonic: U64) {
    || IsBlank(sample.session)
    || (session != "" && sample.session == session
        && (sample.sequence <= lastSequence || sample.monotonic <= lastMonotonic))
  }

  /** The hysteresis test itself would overflow. */
  ghost predicate Overflows(history: seq<Entry>, hysteresis: U64) {
    exists k :: 0 <= k < |history| && U64_MAX < history[k].desired + hysteresis
  }

  ghost predicate WithinDesired(history: seq<Entry>, desired: U64) {
    forall k :: 0 <= k < |history| ==> history[k].desired <= desired
  }

  /** Every sample of the run was taken under one effective maximum. */
  ghost predicate FixedMaximum(run: seq<Observation>) {
    forall i :: 0 <= i < |run| ==> run[i].Taken? && run[0].Taken? && run[i].target.maximum == run[0].target.maximum
  }

  ghost predicate AllSound(run: seq<Observation>) {
    forall i :: 0 <= i < |run| ==> Sound(run[i])
  }

  /** What a successful estimate observes. */
  function Observed(policy: Policy, sample: Sample, geometry: Geometry, minRam: U64,
                    maxRam: U64): (o: Outcome<Observation>)
    ensures o.Ok? ==> o.value.Taken? && Sound(o.value) && Genuine(policy, o.value)
  {
    var instant := Instantaneous(policy, sample.memory, geometry);
    if instant.Err? then Err(instant.error)
    else
      var base := sample.memory.physicalTotal - geometry.current;
      var limited := Limited(instant.value, base, geometry.block, minRam, maxRam);
      if limited.Err? then Err(limited.error)
      else
        TargetKeepsReserves(policy, sample.memory, geometry, base, minRam, maxRam, limited.value,
                            limited.value.desired);
        Ok(Taken(sample.monotonic, sample.session, sample.pressure == Some(High),
                 Reading(sample.memory, geometry.current, base), limited.value))
  }

  /** The sample's own reading, with the least target that serves it. */
  ghost predicate IsReadingOf(
    o: Observation, policy: Policy, sample: Sample, geometry: Geometry, minRam: U64, maxRam: U64)
  {
    && o.Taken? && o.t == sample.monotonic && o.session == sample.session && (o.high <==> sample.pressure == Some(High))
    && o.reading.memory == sample.memory && o.reading.current == geometry.current
    && o.reading.base + geometry.current == sample.memory.physicalTotal
    && IsLeast(policy, o.reading, LimitsOf(policy, geometry, minRam, maxRam), o.target)
  }

  /** What is observed is the sample's own reading. */
  lemma ObservedIsLeast(policy: Policy, sample: Sample, geometry: Geometry, minRam: U64, maxRam: U64)
    requires Observed(policy, sample, geometry, minRam, maxRam).Ok?
    ensures IsReadingOf(Observed(policy, sample, geometry, minRam, maxRam).value, policy, sample, geometry,
                        minRam, maxRam)
  {
    ObservedIsWithin(policy, sample, geometry, minRam, maxRam);
    InstantIsAligned(policy, sample.memory, geometry);
    WithinIsLeast(Observed(policy, sample, geometry, minRam, maxRam), policy, sample, geometry,
                  Instantaneous(policy, sample.memory, geometry).value, minRam, maxRam);
  }

  lemma WithinIsLeast(
    observed: Outcome<Observation>, policy: Policy, sample: Sample, geometry: Geometry, instant: Instant,
    minRam: U64, maxRam: U64)
    requires ObservedWithin(observed, policy, sample, geometry, instant, minRam, maxRam) && observed.Ok?
    requires
      var base := sample.memory.physicalTotal - geometry.current;
      Aligned(policy, Reading(sample.memory, geometry.current, base), geometry, instant)
    ensures IsReadingOf(observed.value, policy, sample, geometry, minRam, maxRam)
  {
    LimitedIsLeast(policy, observed.value.reading, geometry, minRam, maxRam, instant);
  }

  /** Policy and device suit each other: whole positive blocks throughout. */
  predicate Suits(policy: Policy, geometry: Geometry) {
    && 0 < policy.floorPhysicalReserve <= policy.physicalReserve
    && 0 < policy.floorCommitReserve <= policy.commitReserve
    && 0 < policy.window && 0 < policy.maximumGap && 0 < policy.hysteresis
    && IsPowerOfTwo(geometry.block) && 0 < geometry.block && 0 < geometry.size
    && geometry.current % geometry.block == 0 && geometry.current <= geometry.size
    && policy.configuredMinimum % geometry.block == 0 && policy.configuredMinimum <= geometry.size
    && policy.physicalReserve % geometry.block == 0 && policy.commitReserve % geometry.block == 0
    && policy.floorPhysicalReserve % geometry.block == 0 && policy.floorCommitReserve % geometry.block == 0
    && policy.hysteresis % geometry.block == 0
  }

  /** A sample is observed exactly if the telemetry is valid, the policy suits the
      device, nothing overflows, and some size is within the limits on total RAM. */
  lemma ObservedExactlyWhenMeasurable(policy: Policy, sample: Sample, geometry: Geometry, minRam: U64, maxRam: U64)
    ensures
      Observed(policy, sample, geometry, minRam, maxRam).Ok? <==>
      && Measurable(policy, sample.memory, geometry)
      && LimitsOf(policy, geometry, minRam, maxRam).HasRoom(sample.memory.physicalTotal - geometry.current)
  {
    InstantExactlyWhenMeasurable(policy, sample.memory, geometry);
    if Measurable(policy, sample.memory, geometry) {
      ObservedIsWithin(policy, sample, geometry, minRam, maxRam);
      WithinExactlyWhenRoom(Observed(policy, sample, geometry, minRam, maxRam), policy, sample, geometry,
                            Instantaneous(policy, sample.memory, geometry).value, minRam, maxRam);
    }
  }

  lemma WithinExactlyWhenRoom(
    observed: Outcome<Observation>, policy: Policy, sample: Sample, geometry: Geometry, instant: Instant,
    minRam: U64, maxRam: U64)
    requires ObservedWithin(observed, policy, sample, geometry, instant, minRam, maxRam)
    requires instant.maximum == AlignDown(geometry.size, geometry.block)
    ensures observed.Ok? <==>
            LimitsOf(policy, geometry, minRam, maxRam).HasRoom(sample.memory.physicalTotal - geometry.current)
  {
    LimitedExactlyWhenRoom(LimitsOf(policy, geometry, minRam, maxRam), sample.memory.physicalTotal - geometry.current,
                           instant);
  }

  predicate Measurable(policy: Policy, memory: Memory, geometry: Geometry) {
    && Suits(policy, geometry) && 0 < memory.physicalTotal && 0 < memory.commitLimit && memory.load <= 100
    && Max(memory.physicalAvailable, geometry.current) <= memory.physicalTotal
    && memory.commitTotal <= Min(memory.commitLimit, memory.commitPeak)
    && memory.physicalTotal - memory.physicalAvailable + policy.physicalReserve <= U64_MAX
    && geometry.current + policy.commitReserve <= U64_MAX
  }

  lemma InstantExactlyWhenMeasurable(policy: Policy, memory: Memory, geometry: Geometry)
    ensures Instantaneous(policy, memory, geometry).Ok? <==> Measurable(policy, memory, geometry)
    ensures Instantaneous(policy, memory, geometry).Ok? ==>
              Instantaneous(policy, memory, geometry).value.maximum == AlignDown(geometry.size, geometry.block)
  {
    MaximumExactlyWhenSuited(policy, geometry);
    if Measurable(policy, memory, geometry) {
      var maximum := AlignDown(geometry.size, geometry.block);
      forall raw: U64
        ensures AlignUp(Min(raw, maximum), geometry.block) <= maximum
      {
        UpIsLeast(Min(raw, maximum), geometry.block, maximum);
      }
    }
  }

  lemma MaximumExactlyWhenSuited(policy: Policy, geometry: Geometry)
    ensures EffectiveMaximum(policy, geometry).Ok? <==> Suits(policy, geometry)
    ensures Suits(policy, geometry) ==>
              EffectiveMaximum(policy, geometry).value == AlignDown(geometry.size, geometry.block)
  {
    if policy.Valid() && 0 < geometry.block {
      if geometry.current % geometry.block == 0 && geometry.current <= geometry.size {
        DownIsGreatest(geometry.size, geometry.block, geometry.current);
      }
      if policy.configuredMinimum % geometry.block == 0 && policy.configuredMinimum <= geometry.size {
        DownIsGreatest(geometry.size, geometry.block, policy.configuredMinimum);
      }
    }
  }

  lemma LimitedExactlyWhenRoom(limits: Limits, base: U64, instant: Instant)
    requires 0 < limits.block && instant.maximum == AlignDown(limits.size, limits.block)
    ensures Limited(instant, base, limits.block, limits.minRam, limits.maxRam).Ok? <==> limits.HasRoom(base)
  {
    var lowest := AlignUp(SatSub(limits.minRam, base), limits.block);
    var highest := Min(AlignDown(SatSub(limits.maxRam, base), limits.block), instant.maximum);
    if base <= limits.maxRam && lowest <= highest {
      assert limits.Allows(base, lowest);
    }
    forall size: U64 | limits.Allows(base, size) && limits.minRam <= base + size
      ensures base <= limits.maxRam && lowest <= highest
    {
      UpIsLeast(SatSub(limits.minRam, base), limits.block, size);
      DownIsGreatest(limits.size, limits.block, size);
      DownIsGreatest(SatSub(limits.maxRam, base), limits.block, size);
    }
  }

  /** What is observed once the instantaneous target is limited to the VM's RAM. */
  ghost predicate ObservedWithin(
    observed: Outcome<Observation>, policy: Policy, sample: Sample, geometry: Geometry, instant: Instant,
    minRam: U64, maxRam: U64)
  {
    && 0 <= sample.memory.physicalTotal - geometry.current && 0 < geometry.block
    && var base := sample.memory.physicalTotal - geometry.current;
    && var limited := Limited(instant, base, geometry.block, minRam, maxRam);
    && if limited.Err? then observed == Err(limited.error)
       else
         && observed.Ok? && Sound(observed.value) && Genuine(policy, observed.value)
         && observed.value == Taken(sample.monotonic, sample.session, sample.pressure == Some(High),
                                    Reading(sample.memory, geometry.current, base), limited.value)
  }

  lemma ObservedIsWithin(policy: Policy, sample: Sample, geometry: Geometry, minRam: U64, maxRam: U64)
    requires Instantaneous(policy, sample.memory, geometry).Ok?
    ensures ObservedWithin(Observed(policy, sample, geometry, minRam, maxRam), policy, sample, geometry,
                           Instantaneous(policy, sample.memory, geometry).value, minRam, maxRam)
  {
  }

  /** The part of the run that the next sample extends. */
  function Extended(run: seq<Observation>, next: Observation, gap: U64): seq<Observation> {
    if run != [] && Continues(run[|run| - 1], next, gap) then run else []
  }

  /** The run after one more sample. */
  function NextRun(run: seq<Observation>, next: Observation, gap: U64): seq<Observation>
    requires next.Taken?
  {
    if next.high then Extended(run, next, gap) + [next] else []
  }

  lemma RunAfter(log: seq<Observation>, o: Observation, gap: U64)
    ensures UnbrokenRun(log + [o], gap) ==
            match o {
              case Idle => UnbrokenRun(log, gap)
              case Lost => []
              case Taken(_, _, _, _, _) => NextRun(UnbrokenRun(log, gap), o, gap)
            }
  {
    assert (log + [o])[..|log|] == log;
  }

  ghost predicate SoundRun(policy: Policy, run: seq<Observation>) {
    AllSound(run) && Unbroken(run, policy.maximumGap)
  }

  lemma NextRunIsSound(policy: Policy, run: seq<Observation>, next: Observation)
    requires SoundRun(policy, run) && next.Taken? && Sound(next)
    ensures SoundRun(policy, NextRun(run, next, policy.maximumGap))
  {
    var gap := policy.maximumGap;
    var run' := NextRun(run, next, gap);
    forall i | 0 < i < |run'|
      ensures Linked(run', i, gap)
    {
      assert i < |run| ==> Linked(run, i, gap);
    }
  }

  lemma NextRunIsGenuine(policy: Policy, run: seq<Observation>, next: Observation)
    requires AllGenuine(policy, run) && next.Taken? && Genuine(policy, next)
    ensures AllGenuine(policy, NextRun(run, next, policy.maximumGap))
  {
  }

  /** The history after one more sample of an unbroken run summarizes the longer run. */
  lemma AppendSummarizes(
    history: seq<Entry>, starts: seq<nat>, run: seq<Observation>, next: Observation, bucket: U64, gap: U64)
    returns (starts': seq<nat>)
    requires Summarizes(history, starts, run, bucket) && Unbroken(run, gap) && 0 < bucket && next.Taken? && next.high
    requires run != [] ==> Continues(run[|run| - 1], next, gap)
    ensures Summarizes(Appended(history, next.t, next.target, bucket), starts', run + [next], bucket)
    ensures starts <= starts' && (run == [] ==> starts' == [0])
  {
    if history != [] {
      var last := |history| - 1;
      assert Covers(history[last], run, starts[last], End(starts, run, last), bucket);
      if starts[last] < |run| - 1 {
        TimesIncrease(run, gap, starts[last], |run| - 1);
      }
    }
    if Merges(history, next.t, bucket) {
      MergeSummarizes(history, starts, run, next, bucket);
      starts' := starts;
    } else {
      OpenSummarizes(history, starts, run, next, bucket);
      starts' := starts + [|run|];
    }
  }

  /** A desired size that bounded the history still does after the next sample,
      as long as the maximum is the same for all of them. */
  lemma AppendStaysWithin(
    policy: Policy, history: seq<Entry>, starts: seq<nat>, run: seq<Observation>, next: Observation, bucket: U64,
    desired: U64)
    requires Summarizes(history, starts, run, bucket) && next.Taken? && WithinDesired(history, desired)
    requires FixedMaximum(run + [next]) && AllSound(run) && Sound(next)
    ensures WithinDesired(Appended(history, next.t, next.target, bucket), Held(desired, next.target))
  {
    var maximum := next.target.maximum;
    assert (run + [next])[|run|].target.maximum == maximum;
    forall k | 0 <= k < |history|
      ensures history[k].desired <= maximum
    {
      assert Covers(history[k], run, starts[k], End(starts, run, k), bucket);
      var i :| starts[k] <= i < End(starts, run, k) && run[i].Taken? && run[i].target.desired == history[k].desired;
      assert (run + [next])[i] == run[i] && Sound(run[i]);
    }
  }

  /** The history stands for `run`, ending at `now`. */
  ghost predicate StandsFor(
    history: seq<Entry>, starts: seq<nat>, run: seq<Observation>, policy: Policy, desired: U64)
    requires policy.Valid()
  {
    Represents(history, starts, run, policy) && Bounded(history, run, desired)
  }

  ghost predicate Represents(history: seq<Entry>, starts: seq<nat>, run: seq<Observation>, policy: Policy)
    requires policy.Valid()
  {
    && Summarizes(history, starts, run, BucketMillis(policy.window))
    && |history| < MAX_TARGET_HISTORY_ENTRIES
    && (run != [] ==> run[|run| - 1].Taken? && Trimmed(history, starts, policy.window, run[|run| - 1].t))
  }

  /** Under one maximum, nothing in the history exceeds the desired size. */
  ghost predicate Bounded(history: seq<Entry>, run: seq<Observation>, desired: U64) {
    FixedMaximum(run) ==> WithinDesired(history, desired)
  }

  /** What appending leaves for pruning: the longer run, summarized and bounded. */
  ghost predicate Grown(
    history: seq<Entry>, starts: seq<nat>, run: seq<Observation>, policy: Policy, desired: U64, now: U64)
    requires policy.Valid()
  {
    && Summarizes(history, starts, run, BucketMillis(policy.window))
    && Unbroken(run, policy.maximumGap) && run != [] && run[|run| - 1].t == now
    && Bounded(history, run, desired)
    && (0 < starts[0] ==> history[0].t + policy.window <= now)
    && Capped(history) == history
  }

  lemma AppendGrows(
    history: seq<Entry>, starts: seq<nat>, run: seq<Observation>, next: Observation, policy: Policy, was: U64)
    returns (starts': seq<nat>)
    requires policy.Valid() && StandsFor(history, starts, run, policy, was)
    requires SoundRun(policy, run) && Sound(next) && next.Taken? && next.high
    requires run != [] ==> Continues(run[|run| - 1], next, policy.maximumGap)
    ensures Grown(Appended(history, next.t, next.target, BucketMillis(policy.window)), starts', run + [next], policy,
                  Held(was, next.target), next.t)
  {
    var bucket := BucketMillis(policy.window);
    starts' := AppendSummarizes(history, starts, run, next, bucket, policy.maximumGap);
    assert NextRun(run, next, policy.maximumGap) == run + [next];
    NextRunIsSound(policy, run, next);
    if FixedMaximum(run + [next]) {
      FixedBefore(run, next);
      AppendStaysWithin(policy, history, starts, run, next, bucket, was);
    }
  }

  lemma PruneStandsFor(
    history: seq<Entry>, starts: seq<nat>, run: seq<Observation>, policy: Policy, desired: U64, now: U64, dropped: nat)
    requires policy.Valid() && Grown(history, starts, run, policy, desired, now)
    requires dropped < |history|
    requires 0 < dropped ==> history[dropped].t <= SatSub(now, policy.window)
    requires dropped + 1 < |history| ==> SatSub(now, policy.window) < history[dropped + 1].t
    ensures StandsFor(history[dropped..], starts[dropped..], run, policy, desired)
  {
    var bucket, kept, starts' := BucketMillis(policy.window), history[dropped..], starts[dropped..];
    DropSummarizes(history, starts, run, bucket, dropped);
    assert Trimmed(kept, starts', policy.window, now) by {
      assert 0 < dropped ==> history[0].t + bucket <= history[dropped].t;
    }
    LastEntryIsPast(kept, starts', run, bucket, policy.maximumGap);
    HistoryStaysBelowCap(kept, starts', policy.window, now);
  }

  lemma LastEntryIsPast(history: seq<Entry>, starts: seq<nat>, run: seq<Observation>, bucket: U64, gap: U64)
    requires Summarizes(history, starts, run, bucket) && Unbroken(run, gap) && run != []
    ensures history[|history| - 1].t <= run[|run| - 1].t
  {
    var last := |history| - 1;
    assert Covers(history[last], run, starts[last], End(starts, run, last), bucket);
    if starts[last] < |run| - 1 {
      TimesIncrease(run, gap, starts[last], |run| - 1);
    }
  }

  /** Unless the maximum cuts it, the desired size falls only over a full window,
      and then by at least the hysteresis. */
  lemma FallsByHysteresis(
    history: seq<Entry>, starts: seq<nat>, run: seq<Observation>, policy: Policy, was: U64, target: Instant,
    ready: bool,
    current: U64, desired: U64, safeFloor: U64)
    requires policy.Valid() && Represents(history, starts, run, policy) && SoundRun(policy, run)
    requires ready ==> run != [] && run[|run| - 1].target == target
    requires Lowered(history, policy.hysteresis, Held(was, target), ready, current, desired, safeFloor)
    requires desired < was <= target.maximum
    ensures ready && desired + policy.hysteresis <= was
  {
    var i := |run| - 1;
    WindowIsCovered(history, starts, run, BucketMillis(policy.window), policy.window, policy.maximumGap, run[i].t, i);
  }

  class TargetEstimator {
    const policy: Policy
    var minRam: U64
    var maxRam: U64
    var desired: U64
    var safeFloor: U64
    var session: string
    var lastMonotonic: U64
    var lastSequence: U64
    var lastBase: Option<U64>
    var history: seq<Entry>
    ghost var log: seq<Observation>
    ghost var run: seq<Observation>
    ghost var starts: seq<nat>

    ghost predicate Intact()
      reads this
    {
      policy.Valid() && SoundRun(policy, run)
    }

    /** The fields describe the last sample of the run. */
    ghost predicate EndsAt(last: Observation)
      reads this
    {
      last.Taken? && session == last.session && lastMonotonic == last.t && lastBase == Some(last.reading.base)
    }

    ghost predicate Located()
      reads this
    {
      run != [] ==> session != "" && EndsAt(run[|run| - 1])
    }

    ghost predicate Valid()
      reads this
    {
      Consistent() && AllGenuine(policy, run)
    }

    ghost predicate Consistent()
      reads this
    {
      && Intact() && Located()
      && run == UnbrokenRun(log, policy.maximumGap)
      && StandsFor(history, starts, run, policy, desired)
    }

    constructor (policy: Policy)
      requires policy.Valid()
      ensures Valid() && this.policy == policy && log == [] && session == "" && minRam == 0 && maxRam == U64_MAX
      ensures history == [] && desired == safeFloor == lastMonotonic == lastSequence == 0 && lastBase.None?
    {
      this.policy := policy;
      minRam, maxRam := 0, U64_MAX;
      desired, safeFloor, session, lastMonotonic, lastSequence, lastBase := 0, 0, "", 0, 0, None;
      history, log, run, starts := [], [], [], [];
    }

    /** Drop the evidence: nothing may be reclaimed until a full window is seen again. */
    method InvalidateHistory()
      requires policy.Valid()
      modifies this`history, this`safeFloor, this`log, this`run, this`starts
      ensures Valid() && log == old(log) + [Lost] && history == [] && run == [] && safeFloor == desired
    {
      history, safeFloor := [], desired;
      RunAfter(log, Lost, policy.maximumGap);
      log, run, starts := log + [Lost], [], [];
    }

    method SetRamLimits(minimum: U64, maximum: U64) returns (accepted: bool)
      requires Valid()
      modifies this
      ensures Valid() && accepted == (minimum <= maximum)
      ensures accepted ==> minRam == minimum && maxRam == maximum && history == [] && log == old(log) + [Lost]
      ensures !accepted ==> unchanged(this)
    {
      accepted := minimum <= maximum;
      if accepted {
        InvalidateHistory();
        minRam, maxRam := minimum, maximum;
      }
    }

    /** A High sample on a converging device: nothing is estimated, nothing is lost. */
    ghost method PassOver()
      requires Valid()
      modifies this`log
      ensures Valid() && log == old(log) + [Idle]
    {
      RunAfter(log, Idle, policy.maximumGap);
      log := log + [Idle];
    }

    ghost predicate Extends(t: U64, producer: string)
      reads this
    {
      run != [] && session == producer && lastMonotonic < t <= lastMonotonic + policy.maximumGap
    }

    /** The history still stands for the run if a sample at `t` can extend it, and is gone otherwise. */
    ghost predicate Carried(t: U64, producer: string)
      reads this
    {
      && Intact() && Located()
      && if Extends(t, producer) then StandsFor(history, starts, run, policy, desired) else history == []
    }

    /** Order the sample within its session; a new session or a gap restarts the history. */
    method PrepareSample(sample: Sample) returns (failure: Option<Failure>)
      requires Consistent()
      modifies this`history
      ensures failure == Some(InvalidOrdering) <==> Misordered(sample, session, lastSequence, lastMonotonic)
      ensures failure == None || failure == Some(InvalidOrdering)
      ensures failure.None? ==> sample.session != "" && Carried(sample.monotonic, sample.session)
    {
      if IsBlank(sample.session) { return Some(InvalidOrdering); }
      if session == "" { return None; }
      if sample.session != session {
        history := [];
        return None;
      }
      if sample.sequence <= lastSequence || sample.monotonic <= lastMonotonic {
        return Some(InvalidOrdering);
      }
      if policy.maximumGap < SatSub(sample.monotonic, lastMonotonic) {
        history := [];
      }
      return None;
    }

    /** Add the sample to the evidence that `before` left, and prune what the window left behind. */
    static lemma NothingStandsForNothing(policy: Policy, desired: U64)
      requires policy.Valid()
      ensures StandsFor([], [], [], policy, desired)
    {
    }

    /** What pruning leaves of the history with `next` in it stands for the run with `next`. */
    static lemma StandsAfter(
      history: seq<Entry>, starts: seq<nat>, run: seq<Observation>, next: Observation, policy: Policy, was: U64,
      kept: seq<Entry>, dropped: nat)
      returns (starts': seq<nat>)
      requires policy.Valid() && StandsFor(history, starts, run, policy, was)
      requires SoundRun(policy, run) && Sound(next) && next.Taken? && next.high
      requires run != [] ==> Continues(run[|run| - 1], next, policy.maximumGap)
      requires
        var appended := Capped(Appended(history, next.t, next.target, BucketMillis(policy.window)));
        && dropped <= |appended| && kept == appended[dropped..] && (appended != [] ==> kept != [])
        && (0 < dropped ==> kept[0].t <= SatSub(next.t, policy.window))
        && (1 < |kept| ==> SatSub(next.t, policy.window) < kept[1].t)
      ensures StandsFor(kept, starts', run + [next], policy, Held(was, next.target))
    {
      var grown := AppendGrows(history, starts, run, next, policy, was);
      var appended := Appended(history, next.t, next.target, BucketMillis(policy.window));
      PruneStandsFor(appended, grown, run + [next], policy, Held(was, next.target), next.t, dropped);
      starts' := grown[dropped..];
    }

    method Remember(t: U64, high: bool, target: Instant, ghost next: Observation, ghost was: U64,
                    ghost before: seq<Observation>, ghost after: seq<Observation>)
      requires policy.Valid() && next.Taken? && Sound(next) && next.t == t && next.high == high && next.target == target
      requires SoundRun(policy, before)
      requires high ==> (before != [] ==> Continues(before[|before| - 1], next, policy.maximumGap))
      requires high ==> StandsFor(history, starts, before, policy, was)
      requires desired == Held(was, target)
      requires after == if high then before + [next] else []
      modifies this`history, this`safeFloor, this`starts
      ensures StandsFor(history, starts, after, policy, desired)
    {
      if !high {
        history, safeFloor, starts := [], desired, [];
        NothingStandsForNothing(policy, desired);
      } else {
        Retain(t, target, next, was, before);
      }
    }

    /** Append the sample, cap the history and prune it. */
    method Retain(t: U64, target: Instant, ghost next: Observation, ghost was: U64, ghost before: seq<Observation>)
      requires policy.Valid() && next.Taken? && Sound(next) && next.t == t && next.high && next.target == target
      requires SoundRun(policy, before) && StandsFor(history, starts, before, policy, was)
      requires before != [] ==> Continues(before[|before| - 1], next, policy.maximumGap)
      modifies this`history, this`starts
      ensures StandsFor(history, starts, before + [next], policy, Held(was, target))
    {
      var appended := Capped(Appended(history, t, target, BucketMillis(policy.window)));
      var kept, dropped := PruneHistory(appended, t, policy.window);
      ghost var starts' := StandsAfter(history, starts, before, next, policy, was, kept, dropped);
      history, starts := kept, starts';
    }

    /** Evidence over another visible base is dropped; the first sample starts
        from the size the device has. */
    method Rebase(base: U64, current: U64, target: Instant, ghost next: Observation)
      requires next.Taken? && next.reading.base == base && Carried(next.t, next.session)
      modifies this`history, this`safeFloor, this`starts, this`desired, this`lastBase
      ensures lastBase == Some(base)
      ensures desired == if session == "" then Max(current, target.desired) else old(desired)
      ensures next.high ==> StandsFor(history, starts, Extended(run, next, policy.maximumGap), policy, desired)
    {
      if lastBase.Some? && lastBase.value != base {
        history, safeFloor := [], desired;
      }
      lastBase := Some(base);
      if session == "" {
        desired, safeFloor := Max(current, target.desired), current;
      }
      if Extended(run, next, policy.maximumGap) == [] {
        starts := [];
      }
    }

    method Admit(t: U64, high: bool, base: U64, current: U64, target: Instant, ghost next: Observation)
      returns (ghost was: U64)
      requires next.Taken? && Sound(next) && Carried(next.t, next.session)
      requires next.t == t && next.high == high && next.reading.base == base && next.target == target
      modifies this`history, this`safeFloor, this`starts, this`run, this`desired, this`lastBase
      ensures Intact() && lastBase == Some(base)
      ensures was == if session == "" then Max(current, target.desired) else old(desired)
      ensures desired == Held(was, target)
      ensures run == NextRun(old(run), next, policy.maximumGap) && (run != [] ==> run[|run| - 1] == next)
      ensures StandsFor(history, starts, run, policy, desired)
    {
      Rebase(base, current, target, next);
      was := desired;
      desired := Held(desired, target);
      ghost var before := Extended(run, next, policy.maximumGap);
      ghost var run' := NextRun(run, next, policy.maximumGap);
      NextRunIsSound(policy, run, next);
      Remember(t, high, target, next, was, before, run');
      run := run';
    }

    ghost method Record(next: Observation, before: seq<Observation>)
      requires next.Taken? && before == UnbrokenRun(log, policy.maximumGap)
              && run == NextRun(before, next, policy.maximumGap)
      modifies this`log
      ensures log == old(log) + [next] && run == UnbrokenRun(log, policy.maximumGap)
    {
      RunAfter(log, next, policy.maximumGap);
      log := log + [next];
    }

    /** Lower the desired size to the window's maximum if that saves at least the
        hysteresis. `None` is the arithmetic overflow that ends the service. */
    method Conclude(now: U64, current: U64) returns (ready: Option<bool>)
      requires Intact() && StandsFor(history, starts, run, policy, desired)
      requires run != [] ==> run[|run| - 1].Taken? && run[|run| - 1].t == now
      modifies this`desired, this`safeFloor
      ensures ready.Some? ==> (ready.value <==> SpansWindow(run, policy.window, now))
      ensures ready.None? ==> SpansWindow(run, policy.window, now) && Overflows(history, policy.hysteresis)
      ensures StandsFor(history, starts, run, policy, desired)
      ensures ready.Some? ==> Lowered(history, policy.hysteresis, old(desired), ready.value, current, desired,
                                      safeFloor)
    {
      ReadyExactlyWhenRunSpansWindow(history, starts, run, BucketMillis(policy.window), policy.window,
                                     policy.maximumGap, now);
      if HistoryIsReady(history, now, policy.window) {
        var windowDesired := MaxDesired(history);
        MaximaAreGreatest(history);
        if U64_MAX < windowDesired + policy.hysteresis {
          return None;
        }
        if windowDesired + policy.hysteresis <= desired {
          desired := windowDesired;
        }
        safeFloor := Min(MaxFloor(history), desired);
        return Some(true);
      }
      safeFloor := Min(current, desired);
      return Some(false);
    }

    method Close(sample: Sample, ghost next: Observation)
      requires Intact() && run == UnbrokenRun(log, policy.maximumGap)
              && StandsFor(history, starts, run, policy, desired)
      requires run != [] ==> run[|run| - 1] == next
      requires sample.session != "" && next.Taken? && next.session == sample.session && next.t == sample.monotonic
      requires lastBase == Some(next.reading.base)
      modifies this`session, this`lastMonotonic, this`lastSequence
      ensures Consistent() && Follows(sample)
    {
      session, lastMonotonic, lastSequence := sample.session, sample.monotonic, sample.sequence;
    }

    /** What is concluded from `o`: ready exactly for a spanned window, and the desired
        size that was, or at first the device's, raised at once and lowered as allowed. */
    ghost predicate Concluded(
      e: TargetEstimate, o: Observation, now: U64, current: U64, session0: string, desired0: U64)
      requires policy.Valid() && o.Taken?
      reads this
    {
      && e == TargetEstimate(desired, safeFloor, o.target.desired, o.target.floor, o.target.maximum,
                             e.historyReady, o.target.capacityLimited)
      && Lowered(history, policy.hysteresis,
                 Held(if session0 == "" then Max(current, o.target.desired) else desired0, o.target),
                 e.historyReady, current, desired, safeFloor)
      && (e.historyReady <==> SpansWindow(run, policy.window, now))
      && (run != [] ==> run[|run| - 1] == o)
    }

    /** Take the sample's evidence in, and weigh it. */
    method Take(sample: Sample, current: U64, base: U64, target: Instant, ghost next: Observation)
      returns (r: Outcome<TargetEstimate>)
      requires Carried(sample.monotonic, sample.session) && Sound(next) && sample.session != ""
      requires run == UnbrokenRun(log, policy.maximumGap)
      requires next.Taken? && next.t == sample.monotonic && next.session == sample.session
      requires next.high == (sample.pressure == Some(High)) && next.reading.base == base && next.target == target
      modifies this`history, this`safeFloor, this`starts, this`run, this`log, this`desired, this`lastBase,
               this`session, this`lastMonotonic, this`lastSequence
      ensures r.Err? ==> r == Err(ArithmeticOverflow) && Overflows(history, policy.hysteresis)
      ensures r.Ok? ==>
                && Consistent() && Follows(sample)
                && log == old(log) + [next] && run == NextRun(old(run), next, policy.maximumGap)
                && Concluded(r.value, next, sample.monotonic, current, old(session), old(desired))
    {
      ghost var was := Admit(sample.monotonic, sample.pressure == Some(High), base, current, target, next);
      Record(next, old(run));
      r := Finish(sample, current, target, next);
    }

    /** Conclude from the history, and move on to the sample. */
    method Finish(sample: Sample, current: U64, target: Instant, ghost next: Observation)
      returns (r: Outcome<TargetEstimate>)
      requires Intact() && StandsFor(history, starts, run, policy, desired)
      requires run == UnbrokenRun(log, policy.maximumGap) && next.Taken? && (run != [] ==> run[|run| - 1] == next)
      requires sample.session != "" && next.session == sample.session && next.t == sample.monotonic
      requires lastBase == Some(next.reading.base) && next.target == target
      modifies this`desired, this`safeFloor, this`session, this`lastMonotonic, this`lastSequence
      ensures r.Err? ==> r == Err(ArithmeticOverflow) && Overflows(history, policy.hysteresis)
      ensures r.Ok? ==>
                && Consistent() && Follows(sample)
                && r.value == TargetEstimate(desired, safeFloor, target.desired, target.floor, target.maximum,
                                             r.value.historyReady, target.capacityLimited)
                && Lowered(history, policy.hysteresis, old(desired), r.value.historyReady, current, desired, safeFloor)
                && (r.value.historyReady <==> SpansWindow(run, policy.window, sample.monotonic))
    {
      var ready := Conclude(sample.monotonic, current);
      if ready.None? { return Err(ArithmeticOverflow); }
      Close(sample, next);
      r := Ok(TargetEstimate(desired, safeFloor, target.desired, target.floor, target.maximum, ready.value,
                             target.capacityLimited));
    }

    /** Take the sample in, with what follows from it. */
    method Accept(sample: Sample, current: U64, base: U64, target: Instant, ghost next: Observation)
      returns (r: Outcome<TargetEstimate>)
      requires Carried(sample.monotonic, sample.session) && Sound(next) && sample.session != ""
      requires run == UnbrokenRun(log, policy.maximumGap)
      requires next.Taken? && next.t == sample.monotonic && next.session == sample.session
      requires next.high == (sample.pressure == Some(High)) && next.reading.base == base && next.target == target
      requires AllGenuine(policy, run) && Genuine(policy, next)
      modifies this`history, this`safeFloor, this`starts, this`run, this`log, this`desired, this`lastBase,
               this`session, this`lastMonotonic, this`lastSequence
      ensures r.Err? ==> r == Err(ArithmeticOverflow) && Overflows(history, policy.hysteresis)
      ensures r.Ok? ==>
                && Valid() && Follows(sample) && log == old(log) + [next]
                && Concluded(r.value, next, sample.monotonic, current, old(session), old(desired))
                && (old(session) != "" && desired < old(desired) <= target.maximum ==>
                      r.value.historyReady && desired + policy.hysteresis <= old(desired))
    {
      NextRunIsGenuine(policy, run, next);
      r := Take(sample, current, base, target, next);
      if r.Ok? && old(session) != "" && desired < old(desired) <= target.maximum {
        FallsByHysteresis(history, starts, run, policy, old(desired), target, r.value.historyReady, current, desired,
                          safeFloor);
      }
    }

    /** The next sample is ordered after this one. */
    ghost predicate Follows(sample: Sample)
      reads this
    {
      session == sample.session && lastMonotonic == sample.monotonic && lastSequence == sample.sequence
    }

    /** The sample cannot be measured on such a device, leaves no allowed size, or is
        out of order. */
    ghost predicate Refuses(sample: Sample, geometry: Geometry)
      reads this
    {
      || !Measurable(policy, sample.memory, geometry)
      || !LimitsOf(policy, geometry, minRam, maxRam).HasRoom(sample.memory.physicalTotal - geometry.current)
      || IsBlank(sample.session)
      || (sample.session == session != "" && (sample.sequence <= lastSequence || sample.monotonic <= lastMonotonic))
    }

    lemma RefusesExactly(sample: Sample, geometry: Geometry)
      ensures Refuses(sample, geometry) <==>
              || Observed(policy, sample, geometry, minRam, maxRam).Err?
              || Misordered(sample, session, lastSequence, lastMonotonic)
    {
      ObservedExactlyWhenMeasurable(policy, sample, geometry, minRam, maxRam);
    }

    /** One sample: the desired size, the floor below which nothing is reclaimed,
        and whether a full window of evidence stands behind them. */
    method Estimate(sample: Sample, geometry: Geometry) returns (r: Outcome<TargetEstimate>)
      requires Valid()
      modifies this`history, this`safeFloor, this`starts, this`run, this`log, this`desired, this`lastBase,
               this`session, this`lastMonotonic, this`lastSequence
      ensures r == Err(ArithmeticOverflow) || Valid()
      ensures r.Err? && !r.error.ArithmeticOverflow? ==> log == old(log) + [Lost] && history == []
      ensures r.Ok? ==> !old(Refuses(sample, geometry))
      ensures r.Err? ==> old(Refuses(sample, geometry)) || Overflows(history, policy.hysteresis)
      ensures r.Ok? ==>
                && Observed(policy, sample, geometry, minRam, maxRam).Ok?
                && var o := Observed(policy, sample, geometry, minRam, maxRam).value;
                && log == old(log) + [o]
                && Follows(sample)
                && IsReadingOf(o, policy, sample, geometry, minRam, maxRam)
                && Concluded(r.value, o, sample.monotonic, geometry.current, old(session), old(desired))
                && (old(session) != "" && desired < old(desired) <= o.target.maximum ==>
                      r.value.historyReady && desired + policy.hysteresis <= old(desired))
    {
      RefusesExactly(sample, geometry);
      var instant := Instantaneous(policy, sample.memory, geometry);
      if instant.Err? {
        InvalidateHistory();
        return Err(instant.error);
      }
      var failure := PrepareSample(sample);
      if failure.Some? {
        InvalidateHistory();
        return Err(failure.value);
      }
      ghost var observed := Observed(policy, sample, geometry, minRam, maxRam);
      ObservedIsWithin(policy, sample, geometry, minRam, maxRam);
      if observed.Ok? {
        ObservedIsLeast(policy, sample, geometry, minRam, maxRam);
      }
      r := EstimateWithin(sample, geometry, instant.value, observed);
    }

    /** The estimate of a prepared sample, within the RAM limits. */
    method EstimateWithin(sample: Sample, geometry: Geometry, instant: Instant, ghost observed: Outcome<Observation>)
      returns (r: Outcome<TargetEstimate>)
      requires Carried(sample.monotonic, sample.session) && sample.session != ""
      requires run == UnbrokenRun(log, policy.maximumGap) && AllGenuine(policy, run)
      requires ObservedWithin(observed, policy, sample, geometry, instant, minRam, maxRam)
      modifies this`history, this`safeFloor, this`starts, this`run, this`log, this`desired, this`lastBase,
               this`session, this`lastMonotonic, this`lastSequence
      ensures r == Err(ArithmeticOverflow) || Valid()
      ensures r.Err? && !r.error.ArithmeticOverflow? ==> log == old(log) + [Lost] && history == []
      ensures r.Err? ==> observed.Err? || Overflows(history, policy.hysteresis)
      ensures r.Ok? ==>
                && observed.Ok? && log == old(log) + [observed.value] && Follows(sample)
                && Concluded(r.value, observed.value, sample.monotonic, geometry.current, old(session), old(desired))
                && (old(session) != "" && desired < old(desired) <= observed.value.target.maximum ==>
                      r.value.historyReady && desired + policy.hysteresis <= old(desired))
    {
      var base := sample.memory.physicalTotal - geometry.current;
      var limited := Limited(instant, base, geometry.block, minRam, maxRam);
      if limited.Err? {
        if !limited.error.ArithmeticOverflow? {
          InvalidateHistory();
        }
        return Err(limited.error);
      }
      r := Accept(sample, geometry.current, base, limited.value, observed.value);
    }

    /** Over a full window under one maximum, the desired size leaves both reserves
        free for every sample of the window that no upper limit cut short. */
    lemma DesiredKeepsReserves(i: nat, size: U64)
      requires Valid() && i < |run| && lastMonotonic <= run[i].t + policy.window
      requires FixedMaximum(run) && desired <= size
      requires Unlimited(policy, run[i])
      ensures ReservesKept(policy, run[i].reading, size)
    {
      var k := SampleIsCovered(history, starts, run, BucketMillis(policy.window), policy.window, policy.maximumGap,
                               lastMonotonic, i);
      assert Genuine(policy, run[i]);
    }
  }

  lemma FixedBefore(run: seq<Observation>, next: Observation)
    requires FixedMaximum(run + [next])
    ensures FixedMaximum(run)
  {
    assert forall i :: 0 <= i < |run| ==> run[i] == (run + [next])[i];
  }
}
