/** One daemon round over every VM: observe all, allocate the pool, then execute
    each ready request, highest priority first. */
module HostRounds {
  import opened Arithmetic
  import opened Device
  import opened Requests
  import opened Checkpoint
  import opened HostProtocol
  import opened Grants
  import opened HostController
  import opened Pool
  import opened RoundAccounts
  import opened Wrappers

  /** A VM's input to the pool. One never read could hold anything, so it is
      charged the whole pool. */
  function MemberOf(config: HostConfig, observed: Observation, pool: U64): PoolMember {
    match observed
    case ToAct(ready) =>
      var wanted := if ready.request.operation.Add?
                    then Min(ready.request.bytes, GuestRoom(config, ready.baseRam, ready.state)) else 0;
      PoolMember(config.priority, ready.state.current, SatAdd(ready.state.current, wanted), ready.state.block)
    case Held(charge) =>
      if charge.Some? then PoolMember(config.priority, charge.value.bytes, charge.value.bytes, charge.value.block)
      else PoolMember(config.priority, pool, pool, MIN_BLOCK_SIZE_BYTES)
    case _ => PoolMember(config.priority, pool, pool, MIN_BLOCK_SIZE_BYTES)
  }

  /** What phase one observed of each VM: the live state if it was read, and whether the
      VM was watched blindly. */
  datatype Heardings = Heardings(observed: seq<Observation>, read: seq<Option<VirtioMemState>>, blind: seq<bool>) {
    ghost predicate Even() { |observed| == |read| == |blind| }
  }

  /** A round: what was heard of the VMs and what they then were, the pool's ceilings with
      who was served in which order and took how much, and who acted in which order and
      spent how much. */
  datatype Record = Record(
    heard: Heardings,
    mid: seq<Snapshot>,
    ceilings: Option<seq<U64>>,
    served: seq<nat>,
    taken: seq<int>,
    order: seq<nat>,
    spent: seq<int>
  )

  /** Who has taken its turn, what each turn added to the committed growth, and what was
      committed when it came. */
  datatype Turns = Turns(acted: seq<bool>, shares: seq<int>, at: seq<U64>) {
    ghost predicate Even(n: nat) { |acted| == |shares| == |at| == n }

    ghost function Taken(i: nat, share: int, committed: U64): Turns
      requires i < |acted| == |shares| == |at|
    {
      Turns(acted[i := true], shares[i := share], at[i := committed])
    }

    /** Turn by turn, what was spent, and what had been committed. */
    ghost predicate Along(order: seq<nat>, spent: seq<int>, reserved: int) {
      && |spent| <= |order|
      && forall k {:trigger AlongAt(order, spent, reserved, k)} ::
           0 <= k < |spent| ==> AlongAt(order, spent, reserved, k)
    }

    ghost predicate AlongAt(order: seq<nat>, spent: seq<int>, reserved: int, k: nat)
      requires k < |spent| <= |order|
    {
      && order[k] < |shares| == |at| && shares[order[k]] == spent[k]
      && at[order[k]] == reserved + Sum(spent[..k])
    }

    /** Exactly those first in the order have taken their turn. */
    ghost predicate Until(order: seq<nat>, k: nat) {
      && Indices(order, |acted|)
      && forall j :: 0 <= j < |order| ==> (acted[order[j]] <==> j < k)
    }

    /** One more turn extends what was spent. */
    lemma SpentMore(
      configs: seq<HostConfig>, order: seq<nat>, spent: seq<int>, share: int, committed: U64, reserved: int)
      requires Ranks(configs, order) && |spent| < |order| == |acted| == |shares| == |at|
      requires Along(order, spent, reserved) && Until(order, |spent|) && committed == reserved + Sum(spent)
      ensures Sum(spent + [share]) == Sum(spent) + share
      ensures Taken(order[|spent|], share, committed).Along(order, spent + [share], reserved)
      ensures Taken(order[|spent|], share, committed).Until(order, |spent| + 1)
    {
      RanksAreDistinct(configs, order);
      var more, taken := spent + [share], Taken(order[|spent|], share, committed);
      assert more[..|spent|] == spent;
      forall k | 0 <= k < |more|
        ensures taken.AlongAt(order, more, reserved, k)
      {
        if k < |spent| {
          assert more[..k] == spent[..k] && AlongAt(order, spent, reserved, k);
        }
      }
    }
  }

  /** A member's share is the most it may take of what is left. */
  lemma ShareIsServed(
    config: HostConfig, r: Observation, pool: U64, free: int, served: seq<PoolMember>, ceiling: U64, k: nat)
    requires 0 <= free && PositiveBlocks(served) && k < |served| && served[k] == MemberOf(config, r, pool)
    requires ceiling == served[k].charged + Shares(free, served)[k]
    ensures
      var taken := Shares(free, served);
      ServedAt(config, pool, r, ceiling, free - Sum(taken[..k]), taken[k])
  {
    var taken := Shares(free, served);
    ShareIsGreedy(free, served, k);
    MemberIsServed(config, r, pool, ceiling, free - Sum(taken[..k]), taken[k]);
  }

  lemma MemberIsServed(config: HostConfig, r: Observation, pool: U64, ceiling: U64, left: int, taken: int)
    requires
      var member := MemberOf(config, r, pool);
      0 <= left && 0 < member.block && taken == Granted(left, member) && ceiling == member.charged + taken
    ensures ServedAt(config, pool, r, ceiling, left, taken)
  {
    WantsAreServed(config, r, pool, left);
  }

  /** A member granted the most it wants takes the most it may. */
  lemma WantsAreServed(config: HostConfig, r: Observation, total: U64, left: int)
    requires 0 <= left && 0 < MemberOf(config, r, total).block
    ensures TakesMost(config, r, left, Granted(left, MemberOf(config, r, total)))
  {
    var member := MemberOf(config, r, total);
    var taken := Granted(left, member);
    if r.ToAct? && r.ready.request.operation.Add? {
      forall more: int | 0 < more <= left && more % r.ready.state.block == 0 && MayTake(config, r.ready, more)
        ensures more <= taken
      {
        MultipleWithin(more, member.block, taken, Min(member.Wanted(), left));
      }
    }
  }

  /** The pool's members as observed. */
  ghost predicate AsObserved(
    configs: seq<HostConfig>, observed: seq<Observation>, pool: U64, members: seq<PoolMember>)
  {
    && |configs| == |observed| == |members|
    && forall i {:trigger MemberOf(configs[i], observed[i], pool)} ::
         0 <= i < |members| ==> members[i] == MemberOf(configs[i], observed[i], pool)
  }

  /** They are charged, sized and ranked as observed. */
  lemma MembersAreWhatWasObserved(
    configs: seq<HostConfig>, observed: seq<Observation>, pool: U64, members: seq<PoolMember>)
    requires AsObserved(configs, observed, pool, members)
    ensures Charges(members) == ChargedForAll(observed, pool)
    ensures ValidBlocks(members) <==> forall i :: 0 <= i < |observed| ==> IsPowerOfTwo(BlockOf(observed[i]))
    ensures Ranks(configs, Order(members, |members|))
  {
    forall i | 0 <= i < |members|
      ensures members[i].block == BlockOf(observed[i]) && members[i].charged == ChargedFor(observed[i], pool)
    {
      assert members[i] == MemberOf(configs[i], observed[i], pool);
    }
    assert Charges(members) == ChargedForAll(observed, pool);
    OrderIsRanking(members, |members|);
    RankingRanks(configs, observed, pool, members, Order(members, |members|));
  }

  lemma RankingRanks(
    configs: seq<HostConfig>, observed: seq<Observation>, pool: U64, members: seq<PoolMember>, order: seq<nat>)
    requires AsObserved(configs, observed, pool, members)
    requires |order| == |members| && Indices(order, |members|) && Ranked(members, order)
    requires forall i :: 0 <= i < |members| ==> i in order
    ensures Ranks(configs, order)
  {
    forall a, b | 0 <= a < b < |order|
      ensures Outranks(configs, order[a], order[b])
    {
      assert Before(members, order[a], order[b]);
      assert members[order[a]] == MemberOf(configs[order[a]], observed[order[a]], pool);
      assert members[order[b]] == MemberOf(configs[order[b]], observed[order[b]], pool);
    }
  }

  /** What the pool served in order is apportioned by rank. */
  lemma SharesApportion(
    configs: seq<HostConfig>, observed: seq<Observation>, pool: U64, members: seq<PoolMember>,
    allocations: seq<PoolAllocation>)
    returns (order: seq<nat>, taken: seq<int>)
    requires AsObserved(configs, observed, pool, members) && ServedInOrder(pool, members, allocations)
    ensures Apportioned(configs, pool, observed, Ceilings(allocations), order, taken)
  {
    var free := Max(0, pool - Sum(Charges(members)));
    order, taken := Order(members, |members|), Shares(free, Serving(members));
    MembersAreWhatWasObserved(configs, observed, pool, members);
    forall k | 0 <= k < |order|
      ensures ServedInTurn(configs, pool, observed, Ceilings(allocations), order, taken, free, k)
    {
      TurnIsServed(configs, observed, pool, members, allocations, order, free, k);
    }
  }

  lemma TurnIsServed(
    configs: seq<HostConfig>, observed: seq<Observation>, pool: U64, members: seq<PoolMember>,
    allocations: seq<PoolAllocation>, order: seq<nat>, free: int, k: nat)
    requires AsObserved(configs, observed, pool, members) && ServedInOrder(pool, members, allocations)
    requires order == Order(members, |members|) && free == Max(0, pool - Sum(Charges(members))) && k < |order|
    ensures ServedInTurn(configs, pool, observed, Ceilings(allocations), order, Shares(free, Serving(members)), free, k)
  {
    var i, served := order[k], Serving(members);
    assert allocations[i].ceiling == members[i].charged + Shares(free, served)[k];
    ShareIsServed(configs[i], observed[i], pool, free, served, allocations[i].ceiling, k);
  }

  class HostRuntime {
    const vms: seq<VmController>
    const pool: Option<U64>
    const headroom: U64

    constructor (vms: seq<VmController>, pool: Option<U64>, headroom: U64)
      ensures this.vms == vms && this.pool == pool && this.headroom == headroom
    {
      this.vms := vms;
      this.pool := pool;
      this.headroom := headroom;
    }

    /** Distinct controllers, one reserve setting, all between effects. */
    ghost predicate Distinct()
    {
      && (forall i, j :: 0 <= i < j < |vms| ==> vms[i] != vms[j])
      && (forall i :: 0 <= i < |vms| ==> vms[i].config.headroom == headroom)
    }

    ghost predicate Valid()
      reads this, vms
    {
      && Distinct()
      && (forall i :: 0 <= i < |vms| ==> vms[i].Quiet() && vms[i].Covered())
    }

    ghost function Snapshots(): (s: seq<Snapshot>)
      reads this, vms
      ensures |s| == |vms| && forall i :: 0 <= i < |s| ==> s[i] == vms[i].Snap()
    {
      seq(|vms|, i requires 0 <= i < |vms| reads vms => vms[i].Snap())
    }

    /** VM `i` before or after its observation. */
    ghost predicate Watched(i: nat, heard: Heardings, polls: seq<Poll>, before: seq<Snapshot>)
      requires i < |vms| == |before| == |polls| && heard.Even()
      reads this, vms[i]
    {
      if i < |heard.observed| then
        && vms[i].ObservedSince(heard.observed[i], heard.blind[i], before[i])
        && Heard(vms[i].config, heard.observed[i], heard.read[i], heard.blind[i], polls[i], before[i], vms[i].Snap())
      else vms[i].Quiet() && vms[i].Covered() && vms[i].Snap() == before[i]
    }

    lemma WatchedHoldNoMore(failed: nat, heard: Heardings, polls: seq<Poll>, before: seq<Snapshot>)
      requires |vms| == |before| == |polls| && heard.Even()
      requires forall i {:trigger Watched(i, heard, polls, before)} ::
        0 <= i < |vms| && i != failed ==> Watched(i, heard, polls, before)
      ensures forall i :: 0 <= i < |vms| && i != failed ==> vms[i].Valid() && vms[i].Snap().NoMoreThan(before[i])
      ensures failed == |heard.observed| == |vms| ==>
                AllAccounted(heard.observed, heard.blind) && AllHeard(heard, polls, before, Snapshots())
    {
      forall i | 0 <= i < |vms| && i != failed
        ensures vms[i].Valid() && vms[i].Snap().NoMoreThan(before[i])
        ensures i < |heard.observed| == |vms| ==> AccountedAt(i, heard.observed, heard.blind)
        ensures i < |heard.observed| == |vms| ==> HeardAt(i, heard, polls, before, Snapshots())
      {
        assert Watched(i, heard, polls, before);
      }
    }

    /** Every VM is accounted for, and held or ready to act. */
    ghost predicate AllAccounted(observed: seq<Observation>, blinds: seq<bool>)
      requires |observed| == |blinds| == |vms|
      reads this, vms
    {
      forall i {:trigger AccountedAt(i, observed, blinds)} :: 0 <= i < |vms| ==> AccountedAt(i, observed, blinds)
    }

    ghost predicate AccountedAt(i: nat, observed: seq<Observation>, blinds: seq<bool>)
      requires i < |observed| == |blinds| == |vms|
      reads this, vms[i]
    {
      vms[i].Accounted(observed[i], blinds[i]) && (observed[i].Held? || observed[i].ToAct?)
    }

    /** What phase one heard of every VM. */
    ghost predicate AllHeard(heard: Heardings, polls: seq<Poll>, before: seq<Snapshot>, after: seq<Snapshot>) {
      && heard.Even() && |heard.observed| == |polls| == |before| == |after| == |vms|
      && forall i {:trigger HeardAt(i, heard, polls, before, after)} ::
           0 <= i < |vms| ==> HeardAt(i, heard, polls, before, after)
    }

    ghost predicate HeardAt(
      i: nat, heard: Heardings, polls: seq<Poll>, before: seq<Snapshot>, after: seq<Snapshot>)
      requires heard.Even() && i < |heard.observed| == |polls| == |before| == |after| == |vms|
    {
      Heard(vms[i].config, heard.observed[i], heard.read[i], heard.blind[i], polls[i], before[i], after[i])
    }

    /** A VM's controller ended, in either phase: a save failed, or its clock was behind. */
    ghost predicate SomeoneDied(polls: seq<Poll>)
      reads this, vms
    {
      exists i {:trigger DiedAt(i, polls)} :: 0 <= i < |vms| == |polls| && DiedAt(i, polls)
    }

    ghost predicate DiedAt(i: nat, polls: seq<Poll>)
      requires i < |vms| == |polls|
      reads this, vms[i]
    {
      vms[i].Died(polls[i].now) || vms[i].Died(polls[i].boundary.now)
    }

    /** In some state, these polls leave a VM watched blindly. */
    ghost predicate MayBlind(polls: seq<Poll>) {
      exists heard, before, after {:trigger AllHeard(heard, polls, before, after)} ::
        AllHeard(heard, polls, before, after) && true in heard.blind
    }

    /** Phase one over every VM. */
    method ObserveAll(polls: seq<Poll>) returns (ok: bool, observed: seq<Observation>, ghost heard: Heardings)
      requires Valid() && |polls| == |vms|
      modifies vms
      ensures (forall i :: 0 <= i < |vms| ==> vms[i].Valid()) && NoneMore(old(Snapshots()), Snapshots())
      ensures heard.Even() && heard.observed == observed && (!ok ==> SomeoneDied(polls))
      ensures ok ==>
                && |observed| == |vms| && AllAccounted(observed, heard.blind)
                && AllHeard(heard, polls, old(Snapshots()), Snapshots())
    {
      ghost var before := Snapshots();
      observed, heard, ok := [], Heardings([], [], []), true;
      for k := 0 to |vms|
        invariant heard.Even() && heard.observed == observed && |observed| == k
        invariant forall i {:trigger Watched(i, heard, polls, before)} ::
          0 <= i < |vms| ==> Watched(i, heard, polls, before)
      {
        ghost var were := heard;
        ok, observed, heard := ObserveNext(polls, observed, heard, before);
        if !ok {
          WatchedHoldNoMore(k, were, polls, before);
          return;
        }
      }
      WatchedHoldNoMore(|vms|, heard, polls, before);
    }

    /** The next VM is observed; nobody else is touched. */
    method ObserveNext(
      polls: seq<Poll>, observed: seq<Observation>, ghost heard: Heardings, ghost before: seq<Snapshot>)
      returns (ok: bool, observed': seq<Observation>, ghost heard': Heardings)
      requires Distinct() && |polls| == |before| == |vms| && heard.Even()
      requires heard.observed == observed && |observed| < |vms|
      requires forall i {:trigger Watched(i, heard, polls, before)} ::
        0 <= i < |vms| ==> Watched(i, heard, polls, before)
      modifies vms[|observed|]
      ensures heard'.Even() && heard'.observed == observed'
      ensures ok ==>
        && |observed'| == |observed| + 1
        && forall i {:trigger Watched(i, heard', polls, before)} :: 0 <= i < |vms| ==> Watched(i, heard', polls, before)
      ensures !ok ==>
        && observed' == observed && vms[|observed|].Valid() && DiedAt(|observed|, polls)
        && vms[|observed|].Snap().NoMoreThan(before[|observed|])
        && forall i {:trigger Watched(i, heard, polls, before)} ::
             0 <= i < |vms| && i != |observed| ==> Watched(i, heard, polls, before)
    {
      var k := |observed|;
      assert forall j :: 0 <= j < |vms| && j != k ==> vms[j] != vms[k];
      assert Watched(k, heard, polls, before);
      var r, b, live := vms[k].ObserveForRound(polls[k]);
      forall j | 0 <= j < |vms| && j != k
        ensures Watched(j, heard, polls, before)
      {
        assert old(Watched(j, heard, polls, before));
      }
      ok, observed', heard' := !r.Failed?, observed, heard;
      if ok {
        observed' := observed + [r];
        heard' := Heardings(observed', heard.read + [live], heard.blind + [b]);
        forall j | 0 <= j < |vms|
          ensures Watched(j, heard', polls, before)
        {
          assert j != k ==> Watched(j, heard, polls, before);
        }
      }
    }

    function Members(observed: seq<Observation>): (members: seq<PoolMember>)
      requires |observed| == |vms|
      ensures |members| == |vms|
    {
      var bytes: U64 := if pool.Some? then pool.value else 0;
      seq(|vms|, i requires 0 <= i < |vms| => MemberOf(vms[i].config, observed[i], bytes))
    }

    /** Ceilings cover what is charged and together fit the pool, as far as what
        is charged does. */
    ghost predicate Allotted(observed: seq<Observation>, ceilings: Option<seq<U64>>)
      requires |observed| == |vms|
    {
      var members := Members(observed);
      && (ceilings.Some? <==> pool.Some?)
      && (ceilings.Some? ==>
            && |ceilings.value| == |vms|
            && (forall i :: 0 <= i < |vms| ==> members[i].charged <= ceilings.value[i])
            && Sum(ceilings.value) <= Max(pool.value, Sum(Charges(members)))
            && (pool.value <= Sum(Charges(members)) ==>
                  forall i :: 0 <= i < |vms| ==> ceilings.value[i] == members[i].charged))
    }

    ghost function Configs(): (configs: seq<HostConfig>)
      ensures |configs| == |vms| && forall i :: 0 <= i < |vms| ==> configs[i] == vms[i].config
    {
      seq(|vms|, i requires 0 <= i < |vms| => vms[i].config)
    }

    /** The pool cannot be shared out: what is charged overflows, or a block is not valid. */
    ghost predicate Unshareable(observed: seq<Observation>) {
      && pool.Some?
      && (|| U64_MAX < Sum(ChargedForAll(observed, pool.value))
          || exists i :: 0 <= i < |observed| && !IsPowerOfTwo(BlockOf(observed[i])))
    }

    /** The round's ceilings: none without a pool, an error that ends the daemon
        when the charges overflow. */
    method Allocate(observed: seq<Observation>)
      returns (ok: bool, ceilings: Option<seq<U64>>, ghost order: seq<nat>, ghost taken: seq<int>)
      requires |observed| == |vms|
      ensures ok ==> Allotted(observed, ceilings)
      ensures ok && pool.Some? ==> Apportioned(Configs(), pool.value, observed, ceilings.value, order, taken)
      ensures !ok <==> Unshareable(observed)
    {
      order, taken := [], [];
      if pool.None? {
        return true, None, order, taken;
      }
      var r := AllocatePool(pool.value, Members(observed));
      MembersAreWhatWasObserved(Configs(), observed, pool.value, Members(observed));
      if !r.Allocated? {
        return false, None, order, taken;
      }
      ok, ceilings := true, Some(Ceilings(r.allocations));
      order, taken := SharesApportion(Configs(), observed, pool.value, Members(observed), r.allocations);
    }

    function CeilingOf(ceilings: Option<seq<U64>>, i: nat): Option<U64>
      requires ceilings.Some? ==> i < |ceilings.value|
    {
      if ceilings.Some? then Some(ceilings.value[i]) else None
    }

    /** Everyone whose turn it was did with its request what it had to, one after the
        other in `order`, each adding its part of `spent` to what was committed. */
    ghost predicate Executed(
      order: seq<nat>, spent: seq<int>, reserved: int, observed: seq<Observation>, ceilings: Option<seq<U64>>,
      polls: seq<Poll>, before: seq<Snapshot>)
      requires |observed| == |polls| == |before| == |vms| && (ceilings.Some? ==> |ceilings.value| == |vms|)
      reads this, vms
    {
      && Ranks(Configs(), order) && |spent| == |order|
      && forall k {:trigger ExecutedInTurn(order, spent, reserved, observed, ceilings, polls, before, k)} ::
           0 <= k < |order| ==> ExecutedInTurn(order, spent, reserved, observed, ceilings, polls, before, k)
    }

    ghost predicate ExecutedInTurn(
      order: seq<nat>, spent: seq<int>, reserved: int, observed: seq<Observation>, ceilings: Option<seq<U64>>,
      polls: seq<Poll>, before: seq<Snapshot>, k: nat)
      requires |observed| == |polls| == |before| == |vms| && (ceilings.Some? ==> |ceilings.value| == |vms|)
      requires k < |order| == |spent| && order[k] < |vms|
      reads this, vms
    {
      && 0 <= reserved + Sum(spent[..k]) <= U64_MAX
      && vms[order[k]].Turned(
           observed[order[k]],
           Chance(CeilingOf(ceilings, order[k]), reserved + Sum(spent[..k]), polls[order[k]].boundary),
           before[order[k]], spent[k])
    }

    /** Phase two, highest priority first. Every ready request is acted on as it must
        be, and what the round commits on top of what was reserved pays, VM by VM, for
        all growth sent. */
    method ActAll(observed: seq<Observation>, ceilings: Option<seq<U64>>, polls: seq<Poll>,
                  reserved: U64, ghost blind: seq<bool>, ghost before: seq<Snapshot>)
      returns (ok: bool, committed: U64, ghost shares: seq<int>, ghost order: seq<nat>, ghost spent: seq<int>)
      requires Distinct() && |observed| == |polls| == |blind| == |before| == |vms|
      requires ceilings.Some? ==> |ceilings.value| == |vms|
      requires forall i {:trigger vms[i].InRound(false, observed[i], CeilingOf(ceilings, i), blind[i], before[i])} ::
        0 <= i < |vms| ==> vms[i].InRound(false, observed[i], CeilingOf(ceilings, i), blind[i], before[i])
      modifies vms
      ensures (ok ==> Valid()) && forall i :: 0 <= i < |vms| ==> vms[i].Valid()
      ensures if ok then Executed(order, spent, reserved, observed, ceilings, polls, before) else SomeoneDied(polls)
      ensures |shares| == |vms| && Sum(shares) == committed - reserved
      ensures forall i {:trigger PaidFor(i, shares, observed, ceilings, polls, blind, before)} ::
        0 <= i < |vms| ==> PaidFor(i, shares, observed, ceilings, polls, blind, before)
      ensures reserved < committed ==> Affordable(committed, headroom, polls)
    {
      var ranking := TurnOrder(observed);
      order := ranking;
      ghost var turns := Turns(seq(|vms|, _ => false), seq(|vms|, _ => 0), seq(|vms|, _ => 0));
      SumOfZeros(|vms|);
      AllStand(turns, observed, ceilings, polls, blind, before);
      ok, committed, turns, spent := TakeTurns(ranking, turns, observed, ceilings, polls, reserved, blind, before);
      shares := turns.shares;
      AllPaidFor(shares, observed, ceilings, polls, blind, before);
      if ok {
        TurnsAreExecuted(ranking, spent, reserved, turns, observed, ceilings, polls, blind, before);
      }
    }

    lemma TurnsAreExecuted(
      order: seq<nat>, spent: seq<int>, reserved: U64, turns: Turns, observed: seq<Observation>,
      ceilings: Option<seq<U64>>, polls: seq<Poll>, blind: seq<bool>, before: seq<Snapshot>)
      requires turns.Even(|vms|) && |observed| == |polls| == |blind| == |before| == |vms|
      requires ceilings.Some? ==> |ceilings.value| == |vms|
      requires Ranks(Configs(), order) && |spent| == |order|
      requires turns.Until(order, |vms|) && turns.Along(order, spent, reserved)
      requires forall i {:trigger Stands(i, turns, observed, ceilings, polls, blind, before)} ::
        0 <= i < |vms| ==> Stands(i, turns, observed, ceilings, polls, blind, before)
      ensures Executed(order, spent, reserved, observed, ceilings, polls, before)
      ensures forall i :: 0 <= i < |vms| ==> vms[i].Quiet() && vms[i].Covered()
    {
      forall i | 0 <= i < |vms|
        ensures vms[i].Quiet() && vms[i].Covered()
      {
        assert Stands(i, turns, observed, ceilings, polls, blind, before);
      }
      forall k | 0 <= k < |order|
        ensures ExecutedInTurn(order, spent, reserved, observed, ceilings, polls, before, k)
      {
        assert Stands(order[k], turns, observed, ceilings, polls, blind, before);
        assert turns.AlongAt(order, spent, reserved, k);
      }
    }

    /** A turn for everyone in the order, unless one ends the daemon. */
    method TakeTurns(order: seq<nat>, ghost turns: Turns, observed: seq<Observation>, ceilings: Option<seq<U64>>,
                     polls: seq<Poll>, reserved: U64, ghost blind: seq<bool>, ghost before: seq<Snapshot>)
      returns (ok: bool, committed: U64, ghost turns': Turns, ghost spent: seq<int>)
      requires Distinct() && turns.Even(|vms|) && |observed| == |polls| == |blind| == |before| == |vms|
      requires ceilings.Some? ==> |ceilings.value| == |vms|
      requires Ranks(Configs(), order) && forall i :: 0 <= i < |vms| ==> !turns.acted[i]
      requires forall i {:trigger Stands(i, turns, observed, ceilings, polls, blind, before)} ::
        0 <= i < |vms| ==> Stands(i, turns, observed, ceilings, polls, blind, before)
      modifies vms
      ensures turns'.Even(|vms|) && Sum(turns'.shares) - Sum(turns.shares) == committed - reserved
      ensures forall i {:trigger PaidFor(i, turns'.shares, observed, ceilings, polls, blind, before)} ::
        0 <= i < |vms| ==> PaidFor(i, turns'.shares, observed, ceilings, polls, blind, before)
      ensures ok ==>
        && turns'.Until(order, |vms|) && |spent| == |order| && turns'.Along(order, spent, reserved)
        && forall i {:trigger Stands(i, turns', observed, ceilings, polls, blind, before)} ::
             0 <= i < |vms| ==> Stands(i, turns', observed, ceilings, polls, blind, before)
      ensures !ok ==> SomeoneDied(polls)
      ensures reserved < committed ==> Affordable(committed, headroom, polls)
    {
      ok, committed, turns' := true, reserved, turns;
      spent := [];
      for k := 0 to |order|
        invariant turns'.Even(|vms|) && turns'.Until(order, k)
        invariant forall i {:trigger Stands(i, turns', observed, ceilings, polls, blind, before)} ::
          0 <= i < |vms| ==> Stands(i, turns', observed, ceilings, polls, blind, before)
        invariant |spent| == k && Sum(spent) == committed - reserved
        invariant turns'.Along(order, spent, reserved)
        invariant Sum(turns'.shares) - Sum(turns.shares) == committed - reserved
        invariant reserved < committed ==> Affordable(committed, headroom, polls)
      {
        ghost var was, were, at := spent, turns', committed;
        ok, committed, turns' := TakeTurn(order[k], turns', observed, ceilings, polls, committed, blind, before);
        spent := was + [committed - at];
        were.SpentMore(Configs(), order, was, committed - at, at, reserved);
        if !ok {
          StandingIsPaidFor(order[k], turns', observed, ceilings, polls, blind, before);
          return;
        }
      }
      StandingIsPaidFor(|vms|, turns', observed, ceilings, polls, blind, before);
    }

    lemma AllStand(turns: Turns, observed: seq<Observation>, ceilings: Option<seq<U64>>,
                   polls: seq<Poll>, blind: seq<bool>, before: seq<Snapshot>)
      requires turns.Even(|vms|) && |observed| == |polls| == |blind| == |before| == |vms|
      requires ceilings.Some? ==> |ceilings.value| == |vms|
      requires forall i :: 0 <= i < |vms| ==> !turns.acted[i] && turns.shares[i] == 0
      requires forall i {:trigger vms[i].InRound(false, observed[i], CeilingOf(ceilings, i), blind[i], before[i])} ::
        0 <= i < |vms| ==> vms[i].InRound(false, observed[i], CeilingOf(ceilings, i), blind[i], before[i])
      ensures forall i {:trigger Stands(i, turns, observed, ceilings, polls, blind, before)} ::
        0 <= i < |vms| ==> Stands(i, turns, observed, ceilings, polls, blind, before)
    {
      forall i | 0 <= i < |vms|
        ensures Stands(i, turns, observed, ceilings, polls, blind, before)
      {
        assert vms[i].InRound(false, observed[i], CeilingOf(ceilings, i), blind[i], before[i]);
      }
    }

    /** VM `i` takes its turn; nobody else is touched. */
    method TakeTurn(i: nat, ghost turns: Turns, observed: seq<Observation>, ceilings: Option<seq<U64>>,
                    polls: seq<Poll>, committed: U64, ghost blind: seq<bool>, ghost before: seq<Snapshot>)
      returns (ok: bool, committed': U64, ghost turns': Turns)
      requires Distinct() && i < |vms| == |observed| == |polls| == |blind| == |before| && turns.Even(|vms|)
      requires ceilings.Some? ==> |ceilings.value| == |vms|
      requires !turns.acted[i] && forall j {:trigger Stands(j, turns, observed, ceilings, polls, blind, before)} ::
        0 <= j < |vms| ==> Stands(j, turns, observed, ceilings, polls, blind, before)
      modifies vms[i]
      ensures turns' == turns.Taken(i, committed' - committed, committed)
      ensures Sum(turns'.shares) == Sum(turns.shares) + committed' - committed
      ensures forall j {:trigger Stands(j, turns', observed, ceilings, polls, blind, before)} ::
        0 <= j < |vms| && (j != i || ok) ==> Stands(j, turns', observed, ceilings, polls, blind, before)
      ensures PaidFor(i, turns'.shares, observed, ceilings, polls, blind, before)
      ensures committed <= committed' && (!ok ==> DiedAt(i, polls))
      ensures committed < committed' ==> Affordable(committed', headroom, polls)
    {
      assert Stands(i, turns, observed, ceilings, polls, blind, before);
      assert forall j :: 0 <= j < |vms| && j != i ==> vms[j] != vms[i];
      ok, committed', turns' := TakeOwnTurn(i, turns, observed, ceilings, polls, committed, blind, before);
      forall j | 0 <= j < |vms| && j != i
        ensures Stands(j, turns, observed, ceilings, polls, blind, before)
      {
        assert old(Stands(j, turns, observed, ceilings, polls, blind, before));
      }
      OthersStand(i, turns, committed' - committed, committed, observed, ceilings, polls, blind, before);
    }

    method TakeOwnTurn(i: nat, ghost turns: Turns, observed: seq<Observation>, ceilings: Option<seq<U64>>,
                       polls: seq<Poll>, committed: U64, ghost blind: seq<bool>, ghost before: seq<Snapshot>)
      returns (ok: bool, committed': U64, ghost turns': Turns)
      requires Distinct() && i < |vms| == |observed| == |polls| == |blind| == |before| && turns.Even(|vms|)
      requires ceilings.Some? ==> |ceilings.value| == |vms|
      requires !turns.acted[i] && Stands(i, turns, observed, ceilings, polls, blind, before)
      modifies vms[i]
      ensures turns' == turns.Taken(i, committed' - committed, committed)
      ensures Sum(turns'.shares) == Sum(turns.shares) + committed' - committed
      ensures ok ==> Stands(i, turns', observed, ceilings, polls, blind, before)
      ensures PaidFor(i, turns'.shares, observed, ceilings, polls, blind, before)
      ensures committed <= committed' && (!ok ==> DiedAt(i, polls))
      ensures committed < committed' ==> Affordable(committed', headroom, polls)
    {
      ok, committed' := vms[i].ActForRound(
        observed[i], CeilingOf(ceilings, i), committed, polls[i], blind[i], before[i]);
      turns' := turns.Taken(i, committed' - committed, committed);
      SumUpdated(turns.shares, i, committed' - committed);
    }

    /** One VM's turn does not change where the others stand. */
    lemma OthersStand(i: nat, turns: Turns, share: int, committed: U64, observed: seq<Observation>,
                      ceilings: Option<seq<U64>>, polls: seq<Poll>, blind: seq<bool>, before: seq<Snapshot>)
      requires i < |vms| == |observed| == |polls| == |blind| == |before| && turns.Even(|vms|)
      requires ceilings.Some? ==> |ceilings.value| == |vms|
      requires forall j {:trigger Stands(j, turns, observed, ceilings, polls, blind, before)} ::
        0 <= j < |vms| && j != i ==> Stands(j, turns, observed, ceilings, polls, blind, before)
      ensures
        var turns' := turns.Taken(i, share, committed);
        forall j {:trigger Stands(j, turns', observed, ceilings, polls, blind, before)} ::
          0 <= j < |vms| && j != i ==> Stands(j, turns', observed, ceilings, polls, blind, before)
    {
      forall j | 0 <= j < |vms| && j != i
        ensures Stands(j, turns.Taken(i, share, committed), observed, ceilings, polls, blind, before)
      {
        assert Stands(j, turns, observed, ceilings, polls, blind, before);
      }
    }

    /** VM `i` before or after its turn. */
    ghost predicate Stands(i: nat, turns: Turns, observed: seq<Observation>, ceilings: Option<seq<U64>>,
                           polls: seq<Poll>, blind: seq<bool>, before: seq<Snapshot>)
      requires i < |vms| == |observed| == |polls| == |blind| == |before| && turns.Even(|vms|)
      requires ceilings.Some? ==> |ceilings.value| == |vms|
      reads this, vms[i]
    {
      && vms[i].InRound(turns.acted[i], observed[i], CeilingOf(ceilings, i), blind[i], before[i])
      && vms[i].Snap().Spent(turns.shares[i], before[i]) && (!turns.acted[i] ==> turns.shares[i] == 0)
      && (0 < turns.shares[i] ==> Fits(turns.shares[i], headroom, polls[i]))
      && (turns.acted[i] ==>
            vms[i].Turned(observed[i], Chance(CeilingOf(ceilings, i), turns.at[i], polls[i].boundary), before[i],
                          turns.shares[i]))
    }

    /** VM `i` is kept, and its growth is paid for by its share. */
    ghost predicate PaidFor(i: nat, shares: seq<int>, observed: seq<Observation>, ceilings: Option<seq<U64>>,
                            polls: seq<Poll>, blind: seq<bool>, before: seq<Snapshot>)
      requires i < |vms| == |observed| == |polls| == |blind| == |before| == |shares|
      requires ceilings.Some? ==> |ceilings.value| == |vms|
      reads this, vms[i]
    {
      && vms[i].Kept(observed[i], CeilingOf(ceilings, i), blind[i], before[i])
      && vms[i].Snap().Spent(shares[i], before[i])
      && (0 < shares[i] ==> Fits(shares[i], headroom, polls[i]))
    }

    lemma StandingIsPaidFor(failed: nat, turns: Turns, observed: seq<Observation>, ceilings: Option<seq<U64>>,
                            polls: seq<Poll>, blind: seq<bool>, before: seq<Snapshot>)
      requires turns.Even(|vms|) && |observed| == |polls| == |blind| == |before| == |vms|
      requires ceilings.Some? ==> |ceilings.value| == |vms|
      requires failed < |vms| ==> PaidFor(failed, turns.shares, observed, ceilings, polls, blind, before)
      requires forall i {:trigger Stands(i, turns, observed, ceilings, polls, blind, before)} ::
        0 <= i < |vms| && i != failed ==> Stands(i, turns, observed, ceilings, polls, blind, before)
      ensures forall i {:trigger PaidFor(i, turns.shares, observed, ceilings, polls, blind, before)} ::
        0 <= i < |vms| ==> PaidFor(i, turns.shares, observed, ceilings, polls, blind, before)
    {
      forall i | 0 <= i < |vms|
        ensures PaidFor(i, turns.shares, observed, ceilings, polls, blind, before)
      {
        assert i != failed ==> Stands(i, turns, observed, ceilings, polls, blind, before);
      }
    }

    lemma AllPaidFor(shares: seq<int>, observed: seq<Observation>, ceilings: Option<seq<U64>>,
                     polls: seq<Poll>, blind: seq<bool>, before: seq<Snapshot>)
      requires |observed| == |polls| == |blind| == |before| == |shares| == |vms|
      requires ceilings.Some? ==> |ceilings.value| == |vms|
      requires forall i {:trigger PaidFor(i, shares, observed, ceilings, polls, blind, before)} ::
        0 <= i < |vms| ==> PaidFor(i, shares, observed, ceilings, polls, blind, before)
      ensures forall i :: 0 <= i < |vms| ==>
        && vms[i].Kept(observed[i], CeilingOf(ceilings, i), blind[i], before[i])
        && vms[i].Snap().Spent(shares[i], before[i])
        && (0 < shares[i] ==> Fits(shares[i], headroom, polls[i]))
    {
      forall i | 0 <= i < |vms|
        ensures vms[i].Kept(observed[i], CeilingOf(ceilings, i), blind[i], before[i])
        ensures vms[i].Snap().Spent(shares[i], before[i])
        ensures 0 < shares[i] ==> Fits(shares[i], headroom, polls[i])
      {
        assert PaidFor(i, shares, observed, ceilings, polls, blind, before);
      }
    }

    /** Every VM once, highest priority first. */
    method TurnOrder(observed: seq<Observation>) returns (order: seq<nat>)
      requires |observed| == |vms|
      ensures Ranks(Configs(), order)
    {
      var members := Members(observed);
      order := Order(members, |members|);
      OrderIsRanking(members, |members|);
      RankingRanks(Configs(), observed, if pool.Some? then pool.value else 0, members, order);
    }

    /** Growth already on its way; a VM never read could be growing without bound. */
    method OutstandingGrowth() returns (total: U64)
      ensures total == Min(Sum(Owed(Snapshots())), U64_MAX)
    {
      ghost var owed := Owed(Snapshots());
      total := 0;
      for k := 0 to |vms|
        invariant 0 <= Sum(owed[..k]) && total == Min(Sum(owed[..k]), U64_MAX)
      {
        assert owed[..k + 1][..k] == owed[..k];
        total := SatAdd(total, Owing(vms[k].outstandingGrowth));
      }
      assert owed[..|vms|] == owed;
    }

    /** What phase two makes of what phase one heard: the pool is shared out by rank, and
        then everyone's request is acted on by rank, with the growth owed committed first. */
    ghost predicate Fulfilled(record: Record, polls: seq<Poll>)
      requires |record.heard.observed| == |polls| == |record.mid| == |vms|
      reads this, vms
    {
      && (record.ceilings.Some? <==> pool.Some?)
      && (record.ceilings.Some? ==>
            && |record.ceilings.value| == |vms|
            && Apportioned(Configs(), pool.value, record.heard.observed, record.ceilings.value, record.served,
                           record.taken))
      && Executed(record.order, record.spent, Min(Sum(Owed(record.mid)), U64_MAX), record.heard.observed,
                  record.ceilings, polls, record.mid)
    }

    /** What a round that succeeds has done: it heard every VM, and fulfilled what it heard. */
    ghost predicate Done(record: Record, polls: seq<Poll>, start: seq<Snapshot>)
      reads this, vms
    {
      && AllHeard(record.heard, polls, start, record.mid)
      && NoneMore(start, record.mid)
      && Fulfilled(record, polls)
    }

    /** One round, whatever the guests release, the commands answer and the daemon
        survives: what the pool must count fits the pool and what no read has seen
        yet, or is no more than before and what was raised meanwhile from outside or
        by an unrestored widening. Only no VM may be unreadable while the charge on
        record misses part of what it was asked to hold. And all growth the round
        sends leaves the host its reserve. A round fails only if a VM's controller ended
        or the pool could not be shared out; otherwise every ready request was acted on. */
    method Round(polls: seq<Poll>) returns (ok: bool, ghost blind: bool, ghost record: Record)
      requires Valid() && |polls| == |vms|
      modifies vms
      ensures (ok ==> Valid()) && forall i :: 0 <= i < |vms| ==> vms[i].Valid()
      ensures RoundKept(pool, blind, old(Snapshots()), Snapshots(), headroom, polls)
      ensures ok ==> Done(record, polls, old(Snapshots()))
      ensures ok || SomeoneDied(polls)
              || (AllHeard(record.heard, polls, old(Snapshots()), record.mid) && Unshareable(record.heard.observed))
      ensures blind ==> AllHeard(record.heard, polls, old(Snapshots()), record.mid) && true in record.heard.blind
    {
      ghost var start := Snapshots();
      var observed: seq<Observation>;
      ghost var heard: Heardings;
      ok, observed, heard := ObserveAll(polls);
      blind := ok && true in heard.blind;
      ghost var mid := Snapshots();
      record := Record(heard, mid, None, [], [], [], []);
      if ok {
        ok, record := GrantAll(observed, polls, heard, mid);
        PhasesKeepRound(pool, blind, start, mid, Snapshots(), headroom, polls);
      } else {
        ObservingKeepsRound(pool, blind, start, mid, headroom, polls);
      }
    }

    /** The daemon was killed, or ended: every VM starts over from its checkpoint. */
    method RestartAll()
      requires Distinct() && forall i :: 0 <= i < |vms| ==> vms[i].Valid()
      modifies vms
      ensures Valid() && AllStartedOver(old(Snapshots()), Snapshots())
    {
      ghost var before := Snapshots();
      for k := 0 to |vms|
        invariant forall i :: 0 <= i < k ==> vms[i].Quiet() && vms[i].Covered() && vms[i].Snap().StartedOver(before[i])
        invariant forall i :: k <= i < |vms| ==> vms[i].Valid() && vms[i].Snap() == before[i]
      {
        assert forall j :: 0 <= j < |vms| && j != k ==> vms[j] != vms[k];
        vms[k].StartOver();
      }
    }

    /** A round exposes the pool to no more than it was and what was raised meanwhile. */
    method RoundExposes(polls: seq<Poll>) returns (ok: bool, ghost blind: bool)
      requires Valid() && |polls| == |vms|
      modifies vms
      ensures (ok ==> Valid()) && forall i :: 0 <= i < |vms| ==> vms[i].Valid()
      ensures pool.Some? && !blind ==> ExposedBy(pool.value, old(Snapshots()), Snapshots())
      ensures blind ==> MayBlind(polls)
    {
      ghost var start := Snapshots();
      ghost var record;
      ok, blind, record := Round(polls);
      if pool.Some? && !blind {
        ExposureGrowsByStrays(pool.value, start, Snapshots());
      }
    }

    /** A round, and a new daemon after it if the round ended this one or it is killed. */
    method NextRound(polls: seq<Poll>, killed: bool) returns (ghost blind: bool)
      requires Valid() && |polls| == |vms|
      modifies vms
      ensures Valid()
      ensures pool.Some? && !blind ==> ExposedBy(pool.value, old(Snapshots()), Snapshots())
      ensures blind ==> MayBlind(polls)
    {
      ghost var start := Snapshots();
      var ok;
      ok, blind := RoundExposes(polls);
      ghost var ended := Snapshots();
      if !ok || killed {
        RestartAll();
        if pool.Some? && !blind {
          StartingOverExposesNoMore(pool.value, start, ended, Snapshots());
        }
      }
    }

    /** The daemon over any number of rounds, restarted whenever a round ends it and
        killed between rounds at will. From any point on, what the pool must count
        exceeds what it came to by no more than the bytes by which VMs were raised
        since, from outside or by widenings that were not restored. So once everything
        fits and has been read, it always fits but for those. */
    method RunRounds(schedule: seq<seq<Poll>>, killed: seq<bool>) returns (ghost blind: bool)
      requires Valid() && |killed| == |schedule|
      requires forall k :: 0 <= k < |schedule| ==> |schedule[k]| == |vms|
      modifies vms
      ensures Valid()
      ensures pool.Some? && !blind ==>
                Sum(Ledgers(Snapshots())) <= Exposure(pool.value, old(Snapshots()))
                                          + Sum(Outside(Snapshots())) - Sum(Outside(old(Snapshots())))
                                          + Sum(Unrestored(Snapshots())) - Sum(Unrestored(old(Snapshots())))
      ensures blind ==> exists k :: 0 <= k < |schedule| && MayBlind(schedule[k])
    {
      ghost var start := Snapshots();
      blind := false;
      for k := 0 to |schedule|
        invariant Valid()
        invariant pool.Some? && !blind ==> ExposedBy(pool.value, start, Snapshots())
        invariant blind ==> exists j :: 0 <= j < k && MayBlind(schedule[j])
      {
        ghost var b := NextRound(schedule[k], killed[k]);
        blind := blind || b;
      }
      StraysHaveTwoCauses(start);
      StraysHaveTwoCauses(Snapshots());
    }

    /** The pool member carries the charge on record. */
    ghost predicate Matches(observed: Observation, mid: Snapshot) {
      && (mid.charge.Some? ==> mid.charge.value.bytes <= mid.ledger)
      && match observed {
        case Held(charge) => charge == mid.charge
        case ToAct(ready) => mid.charge == Some(Charge(ready.state.current, ready.state.block))
        case _ => false
      }
    }

    /** The ceilings are allotted to what was observed, which is what is on record. */
    ghost predicate Planned(observed: seq<Observation>, ceilings: Option<seq<U64>>, mid: seq<Snapshot>)
      requires |observed| == |mid| == |vms|
    {
      && Allotted(observed, ceilings)
      && (forall i :: 0 <= i < |vms| ==> Matches(observed[i], mid[i]))
      && (forall i :: 0 <= i < |vms| ==> (mid[i].charge.None? <==> mid[i].owed.None?))
    }

    /** Everybody may take a turn, under ceilings allotted to what was observed. */
    ghost predicate Prepared(
      observed: seq<Observation>, ceilings: Option<seq<U64>>, blinds: seq<bool>, mid: seq<Snapshot>)
      requires |observed| == |blinds| == |mid| == |vms|
      reads this, vms
    {
      && Planned(observed, ceilings, mid)
      && (forall i {:trigger vms[i].InRound(false, observed[i], CeilingOf(ceilings, i), blinds[i], mid[i])} ::
            0 <= i < |vms| ==> vms[i].InRound(false, observed[i], CeilingOf(ceilings, i), blinds[i], mid[i]))
    }

    method Prepare(observed: seq<Observation>, ghost blinds: seq<bool>)
      returns (ok: bool, ceilings: Option<seq<U64>>, ghost served: seq<nat>, ghost taken: seq<int>)
      requires |observed| == |blinds| == |vms|
      requires AllAccounted(observed, blinds)
      ensures ok ==> Prepared(observed, ceilings, blinds, Snapshots())
      ensures ok && pool.Some? ==> Apportioned(Configs(), pool.value, observed, ceilings.value, served, taken)
      ensures !ok <==> Unshareable(observed)
    {
      ok, ceilings, served, taken := Allocate(observed);
      if ok {
        RoundStarts(observed, ceilings, blinds);
      }
    }

    /** Allocation and phase two. */
    method GrantAll(observed: seq<Observation>, polls: seq<Poll>, ghost heard: Heardings, ghost mid: seq<Snapshot>)
      returns (ok: bool, ghost record: Record)
      requires Distinct() && |observed| == |polls| == |vms| && heard.Even() && heard.observed == observed
      requires mid == Snapshots()
      requires AllAccounted(observed, heard.blind) && forall i :: 0 <= i < |vms| ==> vms[i].Valid()
      modifies vms
      ensures (ok ==> Valid()) && forall i :: 0 <= i < |vms| ==> vms[i].Valid()
      ensures RoundKept(pool, true in heard.blind, mid, Snapshots(), headroom, polls)
      ensures record.heard == heard && record.mid == mid
      ensures if ok then Fulfilled(record, polls) else SomeoneDied(polls) || Unshareable(observed)
    {
      var ceilings;
      ghost var served, taken;
      ok, ceilings, served, taken := Prepare(observed, heard.blind);
      if !ok {
        StandingKeepsRound(pool, true in heard.blind, Snapshots(), headroom, polls);
        record := Record(heard, mid, ceilings, served, taken, [], []);
        return;
      }
      ghost var order, spent;
      ok, order, spent := ActWithin(observed, ceilings, polls, heard.blind, mid);
      record := Record(heard, mid, ceilings, served, taken, order, spent);
    }

    /** Phase two under the round's ceilings. */
    method ActWithin(observed: seq<Observation>, ceilings: Option<seq<U64>>, polls: seq<Poll>,
                     ghost blinds: seq<bool>, ghost mid: seq<Snapshot>)
      returns (ok: bool, ghost order: seq<nat>, ghost spent: seq<int>)
      requires Distinct() && |observed| == |polls| == |blinds| == |mid| == |vms| && mid == Snapshots()
      requires |polls| == |vms| && Prepared(observed, ceilings, blinds, mid)
      modifies vms
      ensures (ok ==> Valid()) && forall i :: 0 <= i < |vms| ==> vms[i].Valid()
      ensures RoundKept(pool, true in blinds, mid, Snapshots(), headroom, polls)
      ensures if ok then Executed(order, spent, Min(Sum(Owed(mid)), U64_MAX), observed, ceilings, polls, mid)
              else SomeoneDied(polls)
    {
      var outstanding := OutstandingGrowth();
      assert outstanding == Min(Sum(Owed(mid)), U64_MAX);
      var committed;
      ghost var shares;
      ok, committed, shares, order, spent := ActAll(observed, ceilings, polls, outstanding, blinds, mid);
      TurnsKeepRound(observed, ceilings, blinds, mid, shares, polls, outstanding, committed);
    }

    /** Turns that kept every VM, paid for by shares, keep the round. */
    lemma TurnsKeepRound(observed: seq<Observation>, ceilings: Option<seq<U64>>, blinds: seq<bool>,
                         mid: seq<Snapshot>, shares: seq<int>, polls: seq<Poll>, reserved: U64, committed: U64)
      requires |observed| == |blinds| == |mid| == |shares| == |polls| == |vms|
      requires Planned(observed, ceilings, mid)
      requires forall i {:trigger PaidFor(i, shares, observed, ceilings, polls, blinds, mid)} ::
        0 <= i < |vms| ==> PaidFor(i, shares, observed, ceilings, polls, blinds, mid)
      requires reserved == Min(Sum(Owed(mid)), U64_MAX) && Sum(shares) == committed - reserved
      requires reserved < committed ==> Affordable(committed, headroom, polls)
      ensures RoundKept(pool, true in blinds, mid, Snapshots(), headroom, polls)
    {
      assert committed == Min(Sum(Owed(mid)), U64_MAX) + Sum(shares);
      AllPaidFor(shares, observed, ceilings, polls, blinds, mid);
      RoundEnds(observed, ceilings, blinds, mid);
      ReserveEnds(mid, shares, polls);
    }

    lemma ReserveEnds(mid: seq<Snapshot>, shares: seq<int>, polls: seq<Poll>)
      requires |mid| == |shares| == |polls| == |vms|
      requires forall i :: 0 <= i < |vms| ==>
              vms[i].Snap().Spent(shares[i], mid[i]) && vms[i].lastCharge == mid[i].charge
      requires forall i :: 0 <= i < |vms| && 0 < shares[i] ==> Fits(shares[i], headroom, polls[i])
      requires forall i :: 0 <= i < |vms| ==> (mid[i].charge.None? <==> mid[i].owed.None?)
      requires 0 < Sum(shares) ==> Affordable(Min(Sum(Owed(mid)), U64_MAX) + Sum(shares), headroom, polls)
      ensures ReserveKept(mid, Snapshots(), headroom, polls)
    {
      PaidGrowthKeepsReserve(mid, Snapshots(), shares, headroom, polls);
    }

    /** Every VM is charged what it was observed to hold, within its ceiling. */
    lemma RoundStarts(observed: seq<Observation>, ceilings: Option<seq<U64>>, blinds: seq<bool>)
      requires |observed| == |blinds| == |vms| && Allotted(observed, ceilings)
      requires AllAccounted(observed, blinds)
      ensures forall i :: 0 <= i < |vms| ==> Matches(observed[i], Snapshots()[i])
      ensures forall i :: 0 <= i < |vms| ==>
        vms[i].InRound(false, observed[i], CeilingOf(ceilings, i), blinds[i], Snapshots()[i])
    {
      forall i | 0 <= i < |vms|
        ensures Matches(observed[i], Snapshots()[i])
        ensures vms[i].InRound(false, observed[i], CeilingOf(ceilings, i), blinds[i], Snapshots()[i])
      {
        assert AccountedAt(i, observed, blinds);
        vms[i].TurnMayStart(observed[i], CeilingOf(ceilings, i), blinds[i]);
      }
    }

    /** What phase two left, in terms of what it found. */
    lemma RoundEnds(observed: seq<Observation>, ceilings: Option<seq<U64>>, blinds: seq<bool>, mid: seq<Snapshot>)
      requires |observed| == |blinds| == |mid| == |vms|
      requires Allotted(observed, ceilings)
      requires forall i :: 0 <= i < |vms| ==> Matches(observed[i], mid[i])
      requires forall i :: 0 <= i < |vms| ==> vms[i].Kept(observed[i], CeilingOf(ceilings, i), blinds[i], mid[i])
      ensures Drifted(mid, Snapshots()) && forall i :: 0 <= i < |vms| ==> vms[i].lastCharge == mid[i].charge
      ensures pool.Some? && true !in blinds ==> PoolKept(pool.value, mid, Snapshots())
    {
      var after := Snapshots();
      forall i | 0 <= i < |vms|
        ensures after[i].drift.Since(mid[i].drift) && vms[i].lastCharge == mid[i].charge
      {
        assert vms[i].Kept(observed[i], CeilingOf(ceilings, i), blinds[i], mid[i]);
      }
      if pool.Some? && true !in blinds {
        var members := Members(observed);
        forall i | 0 <= i < |vms|
          ensures MemberFits(pool.value, members[i], ceilings.value[i], mid[i], after[i])
        {
          assert Matches(observed[i], mid[i]);
          assert vms[i].Kept(observed[i], CeilingOf(ceilings, i), blinds[i], mid[i]);
        }
        CeilingsKeepPool(pool.value, members, ceilings.value, mid, after);
      }
    }
  }

  // ----- why a VM that cannot be read must be counted in full -----

  /** What the VM holds and its neighbours' charges fit the pool, and what the
      allocation hands out beside the charge the VM is held at does not. */
  ghost predicate Overcommits(held: PoolMember, holds: U64, others: seq<PoolMember>, pool: U64) {
    var members := [held] + others;
    && ValidBlocks(members) && PositiveBlocks(Serving(members))
    && holds + Sum(Charges(others)) <= pool
    && pool < holds + Sum(Charges(others)) + Sum(Shares(Max(0, pool - Sum(Charges(members))), Serving(members)))
  }

  lemma UnderstatedOvercommits(held: PoolMember, holds: U64, other: PoolMember)
    requires held.Wanted() == 0 && IsPowerOfTwo(held.block) && held.charged < holds
    requires other == PoolMember(0, 0, holds - held.charged, 1)
    ensures Overcommits(held, holds, [other], holds)
  {
    var free := holds - held.charged;
    TwoMembers(held, other, free);
    assert Granted(free, other) == free;
  }

  /** A held VM can overcommit a pool exactly if it is held at less than it holds. */
  lemma OvercommitsExactlyIfUnderstated(held: PoolMember, holds: U64)
    requires held.Wanted() == 0
    ensures (exists others, pool: U64 :: Overcommits(held, holds, others, pool)) <==>
            IsPowerOfTwo(held.block) && held.charged < holds
  {
    if IsPowerOfTwo(held.block) && held.charged < holds {
      UnderstatedOvercommits(held, holds, PoolMember(0, 0, holds - held.charged, 1));
    }
    forall others, pool: U64 | Overcommits(held, holds, others, pool)
      ensures IsPowerOfTwo(held.block) && held.charged < holds
    {
      var members := [held] + others;
      assert members[0] == held;
      assert Charges(members) == [held.charged] + Charges(others);
      SumPrepended(held.charged, Charges(others));
      SharesFit(Max(0, pool - Sum(Charges(members))), Serving(members));
    }
  }

  /** A VM that cannot be read and is otherwise as last read, held at the charge on record, can
      overcommit a pool exactly if part of its open intent is uncounted. */
  lemma UnreadVmOvercommitsExactlyIfUncounted(vm: VmController, pool: U64)
    requires vm.Covered() && vm.drift.unseen == 0 && vm.lastCharge.Some?
    ensures
      (exists others, total: U64 ::
         Overcommits(MemberOf(vm.config, Observation.Held(vm.lastCharge), pool), vm.TrueCharge(), others, total)) <==>
      IsPowerOfTwo(vm.lastCharge.value.block) && vm.Uncounted()
  {
    vm.CountedExactly();
    OvercommitsExactlyIfUnderstated(MemberOf(vm.config, Observation.Held(vm.lastCharge), pool), vm.TrueCharge());
  }

  /** Every growth gets there: once it is journalled and sent, the charge from the
      read it was decided on misses all of it. */
  lemma GrowthIsUncountedUntilRead(config: HostConfig, device: VirtioMemState, request: Request, now: U64,
                                   intent: Intent)
    returns (worlds: seq<World>, moves: seq<Move>)
    requires request.ValidAt(config.vm, config.service, now, config.tolerance)
    requires request.operation.Add? && Executes(request, device, intent)
    ensures moves == [Move.Restart, Read, Persist(Begin(request, now, intent), Landed), Send(Resize, Done)]
    ensures Run(config, worlds, moves) && worlds[2].daemon == Some(Daemon(FRESH, Some(device), Idle))
    ensures worlds[4].disk.Durable() && worlds[4].disk.journal == Journal(Some(request), None)
    ensures ChargeOf(worlds[2].disk, worlds[2].device) == device.current
            < worlds[4].disk.IntentTarget() == ChargeOf(worlds[4].disk, worlds[4].device)
  {
    var started := World.World(FRESH, Some(Daemon(FRESH, None, Idle)), device, [], [], map[], []);
    var read := started.(daemon := Some(Daemon(FRESH, Some(device), Idle)));
    moves := [Move.Restart, Read, Persist(Begin(request, now, intent), Landed), Send(Resize, Done)];
    var control := Control(false, Some(intent), Journal(Some(request), None));
    var saved := World.World(control, Some(Daemon(control, Some(device), Armed(Resize))), device, [], [request],
                             map[request := intent.priorCurrent], []);
    var sent := saved.(
      daemon := Some(Daemon(control, Some(device), Idle)), device := device.(requested := intent.target),
      sent := [Sent.Sent(Resize, intent.target, Done, control, device)]);
    worlds := [started.(daemon := None), started, read, saved, sent];
    assert Step(config, worlds, moves, 0);
    assert Step(config, worlds, moves, 1);
    assert Step(config, worlds, moves, 2);
    assert Step(config, worlds, moves, 3);
  }

  // ----- why a widening can raise a charge -----

  /** The daemon's widening raises what the VM is charged exactly if it ends unknown,
      unrestored, on a device not asked for in full; then the whole device counts. */
  lemma WideningRaisesChargeExactlyIfUnrestored(config: HostConfig, answer: Answer, w: World, w': World)
    requires Takes(config, Send(Command.Widen, answer), w, w')
    ensures
      var before, after := ChargeOf(w.disk, w.device), ChargeOf(w'.disk, w'.device);
      && (before < after <==> answer.UnknownRan? && before < w.device.MaximumTarget())
      && after == (if answer.UnknownRan? then Max(before, w.device.MaximumTarget()) else before)
  {
    if answer.UnknownRan? {
      MaximumTargetIsGreatest(w.device, w.device.current);
      MaximumTargetIsGreatest(w.device, w.device.requested);
    }
  }

  /** Every device that is not plugged in full gets there, with nobody else touching
      it: the daemon latches, and reads the whole device into its charge. */
  lemma UnrestoredWideningIsCharged(config: HostConfig, device: VirtioMemState, now: U64)
    returns (worlds: seq<World>, moves: seq<Move>)
    requires device.Valid() && device.Converged() && device.current < device.MaximumTarget()
    ensures moves == [Move.Restart, Read, Send(Command.Widen, UnknownRan), Persist(Latch(now), Landed), Read]
    ensures Run(config, worlds, moves) && worlds[2].daemon == Some(Daemon(FRESH, Some(device), Idle))
    ensures worlds[5].disk.latched && worlds[5].daemon.Some? && worlds[5].daemon.value.seen == Some(worlds[5].device)
    ensures ChargeOf(worlds[2].disk, worlds[2].device) == device.current
            < device.MaximumTarget() == ChargeOf(worlds[5].disk, worlds[5].device)
  {
    MaximumTargetIsGreatest(device, device.current);
    var target := device.MaximumTarget();
    var wide, latched := device.(requested := target), FRESH.(latched := true);
    var start := World.World(FRESH, None, device, [], [], map[], []);
    var read := start.(daemon := Some(Daemon(FRESH, Some(device), Idle)));
    var sent := read.(device := wide, sent := [Sent.Sent(Command.Widen, target, UnknownRan, FRESH, device)]);
    var saved := sent.(disk := latched, daemon := Some(Daemon(latched, Some(device), Idle)));
    moves := [Move.Restart, Read, Send(Command.Widen, UnknownRan), Persist(Latch(now), Landed), Read];
    worlds := [start, start.(daemon := Some(Daemon(FRESH, None, Idle))), read, sent, saved,
               saved.(daemon := Some(Daemon(latched, Some(wide), Idle)))];
    assert Step(config, worlds, moves, 0);
    assert Step(config, worlds, moves, 1);
    assert Step(config, worlds, moves, 2);
    assert Step(config, worlds, moves, 3);
    assert Step(config, worlds, moves, 4);
  }

  lemma TwoMembers(held: PoolMember, other: PoolMember, free: int)
    requires 0 < held.block && 0 < other.block && held.Wanted() == 0 && other.priority <= held.priority && 0 <= free
    ensures Serving([held] + [other]) == [held, other] && PositiveBlocks([held, other])
    ensures Sum(Charges([held] + [other])) == held.charged + other.charged && Sum(Charges([other])) == other.charged
    ensures Sum(Shares(free, [held, other])) == Granted(free, other)
  {
    var members := [held] + [other];
    TwoInOrder(members);
    assert members == [held, other];
    SumPrepended(held.charged, [other.charged]);
    SumPrepended(other.charged, []);
    assert Charges(members) == [held.charged] + [other.charged] && Charges([other]) == [other.charged] + [];
    SharesOfTwo(free, held, other);
  }

  lemma TwoInOrder(members: seq<PoolMember>)
    requires |members| == 2 && members[1].priority <= members[0].priority
    ensures Serving(members) == members
  {
    assert Order(members, 1) == [0];
    assert Order(members, 2) == [0, 1];
  }

  lemma SharesOfTwo(free: int, held: PoolMember, other: PoolMember)
    requires 0 < held.block && 0 < other.block && held.Wanted() == 0 && 0 <= free
    ensures PositiveBlocks([held, other]) && Sum(Shares(free, [held, other])) == Granted(free, other)
  {
    var members := [held, other];
    assert members[1..] == [other] && [other][1..] == [];
    assert Shares(free, [other]) == [Granted(free, other)] + [];
    assert Shares(free, members) == [0] + [Granted(free, other)];
    SumPrepended(0, [Granted(free, other)]);
    SumPrepended(Granted(free, other), []);
  }
}
