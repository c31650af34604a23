/** What a round of the daemon is held to, over all its VMs: the memory the pool
    must count and the growth sent, before and after. */
module RoundAccounts {
  import opened Arithmetic
  import opened Device
  import opened HostProtocol
  import opened Grants
  import opened HostController
  import opened Pool
  import opened Wrappers

  ghost function Ledgers(s: seq<Snapshot>): (r: seq<int>)
    ensures |r| == |s| && forall i :: 0 <= i < |r| ==> r[i] == s[i].ledger
  {
    seq(|s|, i requires 0 <= i < |s| => s[i].ledger)
  }

  /** By how much each VM was raised from outside, by unrestored widenings, by both,
      and by both since it was last read. */
  ghost function Outside(s: seq<Snapshot>): (r: seq<int>)
    ensures |r| == |s| && forall i :: 0 <= i < |r| ==> r[i] == s[i].drift.outside
  {
    seq(|s|, i requires 0 <= i < |s| => s[i].drift.outside)
  }

  ghost function Unrestored(s: seq<Snapshot>): (r: seq<int>)
    ensures |r| == |s| && forall i :: 0 <= i < |r| ==> r[i] == s[i].drift.unrestored
  {
    seq(|s|, i requires 0 <= i < |s| => s[i].drift.unrestored)
  }

  ghost function Strayed(s: seq<Snapshot>): (r: seq<int>)
    ensures |r| == |s| && forall i :: 0 <= i < |r| ==> r[i] == s[i].drift.Total()
  {
    seq(|s|, i requires 0 <= i < |s| => s[i].drift.Total())
  }

  ghost function Unseen(s: seq<Snapshot>): (r: seq<int>)
    ensures |r| == |s| && forall i :: 0 <= i < |r| ==> r[i] == s[i].drift.unseen
  {
    seq(|s|, i requires 0 <= i < |s| => s[i].drift.unseen)
  }

  /** All growth ever sent, VM by VM. */
  ghost function Growths(s: seq<Snapshot>): (r: seq<int>)
    ensures |r| == |s| && forall i :: 0 <= i < |r| ==> r[i] == s[i].growth
  {
    seq(|s|, i requires 0 <= i < |s| => s[i].growth)
  }

  /** Growth already on its way. */
  ghost function Owed(s: seq<Snapshot>): (r: seq<int>)
    ensures |r| == |s| && forall i :: 0 <= i < |r| ==> r[i] == Owing(s[i].owed)
  {
    seq(|s|, i requires 0 <= i < |s| => Owing(s[i].owed))
  }

  /** Growth on its way to the VMs that were sent none since. */
  ghost function StillOwed(before: seq<Snapshot>, after: seq<Snapshot>): (r: seq<int>)
    requires |before| == |after|
    ensures |r| == |after| && forall i :: 0 <= i < |r| ==> r[i] == after[i].StillOwed(before[i])
  {
    seq(|after|, i requires 0 <= i < |after| => after[i].StillOwed(before[i]))
  }

  // ----- the pool -----

  /** What the pool must count fits it and what no read has seen yet, or is no more
      than what it was and what was raised since. */
  ghost predicate PoolKept(pool: U64, before: seq<Snapshot>, after: seq<Snapshot>) {
    Sum(Ledgers(after)) <= Max(pool + Sum(Unseen(after)),
                               Sum(Ledgers(before)) + Sum(Strayed(after)) - Sum(Strayed(before)))
  }

  /** What the pool's bytes may come to: all of it with what no read has seen yet,
      or what is held already. */
  ghost function Exposure(pool: U64, s: seq<Snapshot>): int {
    Max(pool + Sum(Unseen(s)), Sum(Ledgers(s)))
  }

  /** The exposure grew by no more bytes than were raised. */
  ghost predicate ExposedBy(pool: U64, before: seq<Snapshot>, after: seq<Snapshot>) {
    Exposure(pool, after) - Exposure(pool, before) <= Sum(Strayed(after)) - Sum(Strayed(before))
  }

  ghost predicate Drifted(before: seq<Snapshot>, after: seq<Snapshot>) {
    |before| == |after| && forall i :: 0 <= i < |before| ==> after[i].drift.Since(before[i].drift)
  }

  ghost predicate NoneMore(before: seq<Snapshot>, after: seq<Snapshot>) {
    |before| == |after| && forall i :: 0 <= i < |before| ==> after[i].NoMoreThan(before[i])
  }

  lemma {:induction false} SumsBounded(a: seq<int>, b: seq<int>, c: seq<int>, d: seq<int>)
    requires |a| == |b| == |c| == |d| && forall i :: 0 <= i < |a| ==> a[i] + b[i] <= c[i] + d[i]
    ensures Sum(a) + Sum(b) <= Sum(c) + Sum(d)
  {
    var last := |a| - 1;
    if a != [] {
      SumsBounded(a[..last], b[..last], c[..last], d[..last]);
    }
  }

  lemma {:induction false} WithinSums(a: seq<int>, b: seq<int>, c: seq<int>)
    requires |a| == |b| == |c| && forall i :: 0 <= i < |a| ==> a[i] <= b[i] + c[i]
    ensures Sum(a) <= Sum(b) + Sum(c)
  {
    var last := |a| - 1;
    if a != [] {
      WithinSums(a[..last], b[..last], c[..last]);
    }
  }

  /** VMs that were observed, one by one, hold no more than before and what was raised. */
  lemma ObservedHoldNoMore(before: seq<Snapshot>, after: seq<Snapshot>)
    requires NoneMore(before, after)
    ensures Drifted(before, after) && Growths(after) == Growths(before)
    ensures Sum(Ledgers(after)) - Sum(Ledgers(before)) <= Sum(Strayed(after)) - Sum(Strayed(before))
  {
    SumsBounded(Ledgers(after), Strayed(before), Ledgers(before), Strayed(after));
  }

  /** A pool kept since the observation is kept since before it. */
  lemma KeptSinceObserved(pool: Option<U64>, start: seq<Snapshot>, before: seq<Snapshot>, after: seq<Snapshot>)
    requires NoneMore(start, before)
    requires Drifted(before, after)
    ensures Drifted(start, after) && Growths(before) == Growths(start)
    ensures pool.Some? && PoolKept(pool.value, before, after) ==> PoolKept(pool.value, start, after)
  {
    ObservedHoldNoMore(start, before);
    forall i | 0 <= i < |start|
      ensures after[i].drift.Since(start[i].drift)
    {
      assert before[i].NoMoreThan(start[i]);
    }
  }

  /** What a kept pool exposes afterwards. */
  lemma ExposureGrowsByStrays(pool: U64, before: seq<Snapshot>, after: seq<Snapshot>)
    requires PoolKept(pool, before, after) && Drifted(before, after)
    ensures ExposedBy(pool, before, after)
  {
    SumsBounded(Unseen(after), Strayed(before), Unseen(before), Strayed(after));
  }

  ghost predicate AllStartedOver(before: seq<Snapshot>, after: seq<Snapshot>) {
    |before| == |after| && forall i :: 0 <= i < |before| ==> after[i].StartedOver(before[i])
  }

  lemma StartingOverExposesNoMore(pool: U64, before: seq<Snapshot>, ended: seq<Snapshot>, after: seq<Snapshot>)
    requires AllStartedOver(ended, after)
    requires ExposedBy(pool, before, ended)
    ensures ExposedBy(pool, before, after)
  {
    SumBounded(Unseen(after), Unseen(ended));
    SumBounded(Ledgers(after), Ledgers(ended));
    assert Strayed(after) == Strayed(ended);
  }

  lemma StraysHaveTwoCauses(s: seq<Snapshot>)
    ensures Sum(Strayed(s)) == Sum(Outside(s)) + Sum(Unrestored(s))
  {
    SumAdded(Outside(s), Unrestored(s), Strayed(s));
  }

  /** How one VM stayed within its ceiling, or within what it held. */
  ghost predicate MemberFits(pool: U64, member: PoolMember, ceiling: U64, before: Snapshot, after: Snapshot) {
    if before.charge.Some? then
      && member.charged == before.charge.value.bytes <= before.ledger
      && after.ledger <= ceiling + after.drift.unseen
      && after.ledger <= Max(before.ledger, ceiling) + after.drift.Total() - before.drift.Total()
    else
      && member.charged == pool
      && after.ledger <= before.ledger + after.drift.Total() - before.drift.Total()
  }

  /** Ceilings that fit the pool, and memory that stays within them. */
  lemma CeilingsKeepPool(
    pool: U64, members: seq<PoolMember>, ceilings: seq<U64>, before: seq<Snapshot>, after: seq<Snapshot>)
    requires |members| == |ceilings| == |before| == |after|
    requires forall i :: 0 <= i < |before| ==> MemberFits(pool, members[i], ceilings[i], before[i], after[i])
    requires Sum(ceilings) <= Max(pool, Sum(Charges(members)))
    requires pool <= Sum(Charges(members)) ==>
      forall i :: 0 <= i < |before| ==> ceilings[i] == members[i].charged
    ensures PoolKept(pool, before, after)
  {
    if pool <= Sum(Charges(members)) {
      forall i | 0 <= i < |before|
        ensures Ledgers(after)[i] + Strayed(before)[i] <= Ledgers(before)[i] + Strayed(after)[i]
      {
        assert MemberFits(pool, members[i], ceilings[i], before[i], after[i]);
      }
      SumsBounded(Ledgers(after), Strayed(before), Ledgers(before), Strayed(after));
    } else {
      forall i | 0 <= i < |before|
        ensures Ledgers(after)[i] <= ceilings[i] + Unseen(after)[i]
      {
        ElementWithinSum(Charges(members), i);
        assert MemberFits(pool, members[i], ceilings[i], before[i], after[i]);
      }
      WithinSums(Ledgers(after), ceilings, Unseen(after));
    }
  }

  // ----- the host's reserve -----

  /** So much growth leaves reserve and margin of the memory the host has available. */
  ghost predicate Fits(growth: int, headroom: U64, poll: Poll) {
    growth + headroom + GROW_ADMISSION_MARGIN_BYTES <= poll.boundary.available
  }

  /** ... of what it had available at one of the turns: the last to commit any. */
  ghost predicate Affordable(growth: int, headroom: U64, polls: seq<Poll>) {
    exists i :: 0 <= i < |polls| && Fits(growth, headroom, polls[i])
  }

  /** Each VM's growth fits at its own turn, and all growth fits on top of all that
      the other VMs still owe; while a VM has never been read, none is sent at all. */
  ghost predicate ReserveKept(before: seq<Snapshot>, after: seq<Snapshot>, headroom: U64, polls: seq<Poll>) {
    && |before| == |after| == |polls|
    && (forall i :: 0 <= i < |before| ==> before[i].growth <= after[i].growth)
    && (forall i :: 0 <= i < |before| && before[i].growth < after[i].growth ==>
          Fits(after[i].growth - before[i].growth, headroom, polls[i]))
    && (Sum(Growths(before)) < Sum(Growths(after)) ==>
          Affordable(Sum(Growths(after)) - Sum(Growths(before)) + Min(Sum(StillOwed(before, after)), U64_MAX),
                     headroom, polls))
    && ((exists i :: 0 <= i < |after| && after[i].charge.None?) ==> Growths(after) == Growths(before))
  }

  lemma NothingSentKeepsReserve(before: seq<Snapshot>, after: seq<Snapshot>, headroom: U64, polls: seq<Poll>)
    requires |before| == |after| == |polls| && Growths(after) == Growths(before)
    ensures ReserveKept(before, after, headroom, polls)
  {
    forall i | 0 <= i < |before|
      ensures after[i].growth == before[i].growth
    {
      assert Growths(after)[i] == Growths(before)[i];
    }
  }

  /** The reserve is kept from where the same growth had been sent. */
  lemma ReserveKeptSince(
    start: seq<Snapshot>, before: seq<Snapshot>, after: seq<Snapshot>, headroom: U64, polls: seq<Poll>)
    requires |start| == |before| && Growths(start) == Growths(before) && ReserveKept(before, after, headroom, polls)
    ensures ReserveKept(start, after, headroom, polls)
  {
    forall i | 0 <= i < |start|
      ensures start[i].growth == before[i].growth
    {
      assert Growths(start)[i] == Growths(before)[i];
    }
    assert StillOwed(start, after) == StillOwed(before, after);
  }

  /** What is paid for one by one is paid for in total. */
  lemma {:induction false} SharesPay(before: seq<int>, after: seq<int>, still: seq<int>, owed: seq<int>,
                                     shares: seq<int>)
    requires |before| == |after| == |still| == |owed| == |shares|
    requires forall i :: 0 <= i < |before| ==> 0 <= after[i] - before[i] <= shares[i]
    requires forall i :: 0 <= i < |before| ==> after[i] - before[i] + still[i] <= owed[i] + shares[i]
    ensures Sum(after) - Sum(before) <= Sum(shares)
    ensures Sum(after) - Sum(before) + Sum(still) <= Sum(owed) + Sum(shares)
  {
    var last := |before| - 1;
    if before != [] {
      SharesPay(before[..last], after[..last], still[..last], owed[..last], shares[..last]);
    }
  }

  lemma NothingSpent(before: seq<int>, after: seq<int>, shares: seq<int>)
    requires |before| == |after| == |shares| && Sum(shares) <= 0
    requires forall i :: 0 <= i < |before| ==> 0 <= after[i] - before[i] <= shares[i]
    ensures after == before
  {
    forall i | 0 <= i < |before|
      ensures after[i] == before[i]
    {
      ElementWithinSum(shares, i);
    }
  }

  lemma LessIsAffordable(less: int, growth: int, headroom: U64, polls: seq<Poll>)
    requires less <= growth && Affordable(growth, headroom, polls)
    ensures Affordable(less, headroom, polls)
  {
    var i :| 0 <= i < |polls| && Fits(growth, headroom, polls[i]);
    assert Fits(less, headroom, polls[i]);
  }

  /** VM by VM a share pays for what was sent, and fits at the VM's turn. */
  ghost predicate Paid(before: seq<Snapshot>, after: seq<Snapshot>, shares: seq<int>, headroom: U64, polls: seq<Poll>) {
    && |before| == |after| == |shares| == |polls|
    && (forall i :: 0 <= i < |before| ==> after[i].Spent(shares[i], before[i]) && after[i].charge == before[i].charge)
    && (forall i :: 0 <= i < |before| && 0 < shares[i] ==> Fits(shares[i], headroom, polls[i]))
  }

  /** Shares that pay for each VM keep the reserve in total, also when the sum of
      what was owed saturates. */
  lemma PaidGrowthKeepsReserve(
    before: seq<Snapshot>, after: seq<Snapshot>, shares: seq<int>, headroom: U64, polls: seq<Poll>)
    requires Paid(before, after, shares, headroom, polls)
    requires forall i :: 0 <= i < |before| ==> (before[i].charge.None? <==> before[i].owed.None?)
    requires 0 < Sum(shares) ==> Affordable(Min(Sum(Owed(before)), U64_MAX) + Sum(shares), headroom, polls)
    ensures ReserveKept(before, after, headroom, polls)
  {
    var still := StillOwed(before, after);
    SharesPay(Growths(before), Growths(after), still, Owed(before), shares);
    if 0 < Sum(shares) {
      LessIsAffordable(Sum(Growths(after)) - Sum(Growths(before)) + Min(Sum(still), U64_MAX),
                       Min(Sum(Owed(before)), U64_MAX) + Sum(shares), headroom, polls);
    }
    if i :| 0 <= i < |after| && after[i].charge.None? {
      ElementWithinSum(Owed(before), i);
      NothingSpent(Growths(before), Growths(after), shares);
    }
  }

  // ----- who gets what of the pool -----

  /** What the pool charges for what was observed: the allocation of a ready VM, the
      charge on record of another, and the whole pool for one never read. */
  ghost function ChargedFor(r: Observation, pool: U64): U64 {
    if r.ToAct? then r.ready.state.current
    else if r.Held? && r.charge.Some? then r.charge.value.bytes
    else pool
  }

  ghost function BlockOf(r: Observation): U64 {
    if r.ToAct? then r.ready.state.block
    else if r.Held? && r.charge.Some? then r.charge.value.block
    else MIN_BLOCK_SIZE_BYTES
  }

  ghost function ChargedForAll(observed: seq<Observation>, pool: U64): (r: seq<int>)
    ensures |r| == |observed| && forall i :: 0 <= i < |r| ==> r[i] == ChargedFor(observed[i], pool)
  {
    seq(|observed|, i requires 0 <= i < |observed| => ChargedFor(observed[i], pool))
  }

  /** Growing by `bytes` is within the request and the guest's maximum. */
  ghost predicate MayTake(config: HostConfig, ready: Ready, bytes: int) {
    bytes <= ready.request.bytes && ready.baseRam + ready.state.current + bytes <= config.maxRam
  }

  /** Of what is `left`, a VM ready to grow takes the most whole blocks it may; every
      other takes nothing. */
  ghost predicate TakesMost(config: HostConfig, r: Observation, left: int, taken: int) {
    if r.ToAct? && r.ready.request.operation.Add? && 0 < r.ready.state.block then
      && 0 <= taken <= left && taken % r.ready.state.block == 0
      && (0 < taken ==> MayTake(config, r.ready, taken))
      && forall more: int {:trigger MayTake(config, r.ready, more)} ::
           0 < more <= left && more % r.ready.state.block == 0 && MayTake(config, r.ready, more) ==> more <= taken
    else taken == 0
  }

  /** Everyone once, higher priority first, listing order at the same priority. */
  ghost predicate Ranks(configs: seq<HostConfig>, order: seq<nat>) {
    && |order| == |configs| && Indices(order, |configs|)
    && (forall i {:trigger i in order} :: 0 <= i < |configs| ==> i in order)
    && forall a, b {:trigger Outranks(configs, order[a], order[b])} ::
         0 <= a < b < |order| ==> Outranks(configs, order[a], order[b])
  }

  ghost predicate Outranks(configs: seq<HostConfig>, i: nat, j: nat)
    requires i < |configs| && j < |configs|
  {
    || configs[i].priority > configs[j].priority
    || (configs[i].priority == configs[j].priority && i < j)
  }

  lemma RanksAreDistinct(configs: seq<HostConfig>, order: seq<nat>)
    requires Ranks(configs, order)
    ensures forall a, b :: 0 <= a < b < |order| ==> order[a] != order[b]
  {
    forall a, b | 0 <= a < b < |order|
      ensures order[a] != order[b]
    {
      assert Outranks(configs, order[a], order[b]);
    }
  }

  /** In ranking order each VM takes the most it may of what those before it have left
      of the pool; its ceiling is its charge and what it takes. */
  ghost predicate Apportioned(
    configs: seq<HostConfig>, pool: U64, observed: seq<Observation>, ceilings: seq<U64>, order: seq<nat>,
    taken: seq<int>)
  {
    && |configs| == |observed| == |ceilings| == |taken| && Ranks(configs, order)
    && var free := Max(0, pool - Sum(ChargedForAll(observed, pool)));
    && forall k {:trigger ServedInTurn(configs, pool, observed, ceilings, order, taken, free, k)} ::
         0 <= k < |order| ==> ServedInTurn(configs, pool, observed, ceilings, order, taken, free, k)
  }

  ghost predicate ServedInTurn(
    configs: seq<HostConfig>, pool: U64, observed: seq<Observation>, ceilings: seq<U64>, order: seq<nat>,
    taken: seq<int>, free: int, k: nat)
    requires |configs| == |observed| == |ceilings| && k < |order| == |taken| && order[k] < |configs|
  {
    ServedAt(configs[order[k]], pool, observed[order[k]], ceilings[order[k]], free - Sum(taken[..k]), taken[k])
  }

  ghost predicate ServedAt(config: HostConfig, pool: U64, r: Observation, ceiling: U64, left: int, taken: int) {
    ceiling == ChargedFor(r, pool) + taken && TakesMost(config, r, left, taken)
  }

  /** So a VM ready to grow is let grow by any whole blocks it may take that fit beside
      all that those before it can take. */
  lemma {:induction false} TakenIsAtMost(
    configs: seq<HostConfig>, pool: U64, observed: seq<Observation>, ceilings: seq<U64>, order: seq<nat>,
    taken: seq<int>, most: seq<int>, k: nat)
    requires Apportioned(configs, pool, observed, ceilings, order, taken) && k <= |order| == |most|
    requires forall j :: 0 <= j < k ==> 0 <= most[j]
    requires forall j, bytes: int ::
      0 <= j < k && observed[order[j]].ToAct? && MayTake(configs[order[j]], observed[order[j]].ready, bytes) ==>
        bytes <= most[j]
    ensures Sum(taken[..k]) <= Sum(most[..k])
  {
    if 0 < k {
      TakenIsAtMost(configs, pool, observed, ceilings, order, taken, most, k - 1);
      assert taken[..k][..k - 1] == taken[..k - 1] && most[..k][..k - 1] == most[..k - 1];
      assert ServedInTurn(configs, pool, observed, ceilings, order, taken,
                          Max(0, pool - Sum(ChargedForAll(observed, pool))), k - 1);
    }
  }

  lemma ReadyGrowthIsServed(
    configs: seq<HostConfig>, pool: U64, observed: seq<Observation>, ceilings: seq<U64>, order: seq<nat>,
    taken: seq<int>, most: seq<int>, k: nat, bytes: int)
    requires Apportioned(configs, pool, observed, ceilings, order, taken) && k < |order| == |most|
    requires forall j :: 0 <= j < k ==> 0 <= most[j]
    requires forall j, b: int ::
      0 <= j < k && observed[order[j]].ToAct? && MayTake(configs[order[j]], observed[order[j]].ready, b) ==>
        b <= most[j]
    requires
      var r := observed[order[k]];
      && r.ToAct? && r.ready.request.operation.Add? && 0 < r.ready.state.block
      && 0 < bytes && bytes % r.ready.state.block == 0 && MayTake(configs[order[k]], r.ready, bytes)
    requires bytes + Sum(most[..k]) <= pool - Sum(ChargedForAll(observed, pool))
    ensures observed[order[k]].ready.state.current + bytes <= ceilings[order[k]]
  {
    TakenIsAtMost(configs, pool, observed, ceilings, order, taken, most, k);
    assert ServedInTurn(configs, pool, observed, ceilings, order, taken,
                        Max(0, pool - Sum(ChargedForAll(observed, pool))), k);
  }

  // ----- both -----

  /** What a round keeps. `blind`: some VM was unreadable while the charge on record
      missed part of what it was asked to hold. */
  ghost predicate RoundKept(
    pool: Option<U64>, blind: bool, before: seq<Snapshot>, after: seq<Snapshot>, headroom: U64, polls: seq<Poll>)
  {
    && Drifted(before, after)
    && (pool.Some? && !blind ==> PoolKept(pool.value, before, after))
    && ReserveKept(before, after, headroom, polls)
  }

  lemma PhasesKeepRound(
    pool: Option<U64>, blind: bool, start: seq<Snapshot>, mid: seq<Snapshot>, after: seq<Snapshot>,
    headroom: U64, polls: seq<Poll>)
    requires NoneMore(start, mid)
    requires RoundKept(pool, blind, mid, after, headroom, polls)
    ensures RoundKept(pool, blind, start, after, headroom, polls)
  {
    KeptSinceObserved(pool, start, mid, after);
    ReserveKeptSince(start, mid, after, headroom, polls);
  }

  lemma ObservingKeepsRound(
    pool: Option<U64>, blind: bool, start: seq<Snapshot>, after: seq<Snapshot>, headroom: U64, polls: seq<Poll>)
    requires |polls| == |start| && NoneMore(start, after)
    ensures RoundKept(pool, blind, start, after, headroom, polls)
  {
    ObservedHoldNoMore(start, after);
    NothingSentKeepsReserve(start, after, headroom, polls);
  }

  lemma StandingKeepsRound(pool: Option<U64>, blind: bool, s: seq<Snapshot>, headroom: U64, polls: seq<Poll>)
    requires |s| == |polls|
    ensures RoundKept(pool, blind, s, s, headroom, polls)
  {
    ObservingKeepsRound(pool, blind, s, s, headroom, polls);
  }

  lemma {:induction false} ElementWithinSum(s: seq<int>, i: nat)
    requires i < |s| && forall k :: 0 <= k < |s| ==> 0 <= s[k]
    ensures s[i] <= Sum(s)
  {
    SumBounded(seq(|s|, _ => 0), s[i := 0]);
    SumOfZeros(|s|);
    SumUpdated(s, i, 0);
  }
}
