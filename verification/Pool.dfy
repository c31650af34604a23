/** Shared-pool bookkeeping of one round: who gets the free bytes first. */
module Pool {
  import opened Arithmetic
  import opened Wrappers

  datatype PoolMember = PoolMember(priority: nat, charged: U64, desired: U64, block: U64) {
    function Wanted(): U64 { SatSub(desired, charged) }
  }

  datatype PoolAllocation = PoolAllocation(ceiling: U64, unmet: U64)

  datatype PoolResult = Allocated(allocations: seq<PoolAllocation>) | InvalidBlock | Overflow

  function Sum(s: seq<int>): int {
    if s == [] then 0 else Sum(s[..|s| - 1]) + s[|s| - 1]
  }

  lemma {:induction false} SumUpdated(s: seq<int>, i: nat, value: int)
    requires i < |s|
    ensures Sum(s[i := value]) == Sum(s) - s[i] + value
  {
    var last := |s| - 1;
    if i < last {
      assert s[i := value][..last] == s[..last][i := value];
      SumUpdated(s[..last], i, value);
    } else {
      assert s[i := value][..last] == s[..last];
    }
  }

  lemma {:induction false} SumBounded(s: seq<int>, t: seq<int>)
    requires |s| == |t| && forall i :: 0 <= i < |s| ==> s[i] <= t[i]
    ensures Sum(s) <= Sum(t)
  {
    if s != [] {
      SumBounded(s[..|s| - 1], t[..|s| - 1]);
    }
  }

  lemma {:induction false} SumAdded(s: seq<int>, t: seq<int>, u: seq<int>)
    requires |s| == |t| == |u| && forall i :: 0 <= i < |s| ==> u[i] == s[i] + t[i]
    ensures Sum(u) == Sum(s) + Sum(t)
  {
    if s != [] {
      SumAdded(s[..|s| - 1], t[..|s| - 1], u[..|s| - 1]);
    }
  }

  lemma {:induction false} SumOfZeros(n: nat)
    ensures Sum(seq(n, _ => 0)) == 0
  {
    if n > 0 {
      assert seq(n, _ => 0)[..n - 1] == seq(n - 1, _ => 0);
      SumOfZeros(n - 1);
    }
  }

  lemma {:induction false} SumPrepended(x: int, s: seq<int>)
    ensures Sum([x] + s) == x + Sum(s)
  {
    if s != [] {
      assert ([x] + s)[..|s|] == [x] + s[..|s| - 1];
      SumPrepended(x, s[..|s| - 1]);
    }
  }

  function Charges(members: seq<PoolMember>): seq<int> {
    seq(|members|, i requires 0 <= i < |members| => members[i].charged)
  }

  function Ceilings(allocations: seq<PoolAllocation>): seq<int> {
    seq(|allocations|, i requires 0 <= i < |allocations| => allocations[i].ceiling)
  }

  // ----- highest priority first, listing order breaks ties -----

  predicate Indices(order: seq<nat>, n: nat) {
    forall k :: 0 <= k < |order| ==> order[k] < n
  }

  function Insert(members: seq<PoolMember>, order: seq<nat>, index: nat): (r: seq<nat>)
    requires index < |members| && Indices(order, index)
    ensures |r| == |order| + 1 && Indices(r, index + 1)
  {
    if order == [] || members[order[|order| - 1]].priority >= members[index].priority then order + [index]
    else Insert(members, order[..|order| - 1], index) + [order[|order| - 1]]
  }

  function Order(members: seq<PoolMember>, n: nat): (order: seq<nat>)
    requires n <= |members|
    ensures |order| == n && Indices(order, n)
  {
    if n == 0 then [] else Insert(members, Order(members, n - 1), n - 1)
  }

  /** Served before: of higher priority, or listed earlier at the same priority. */
  predicate Before(members: seq<PoolMember>, i: nat, j: nat)
    requires i < |members| && j < |members|
  {
    members[i].priority > members[j].priority || (members[i].priority == members[j].priority && i < j)
  }

  ghost predicate Ranked(members: seq<PoolMember>, order: seq<nat>)
    requires Indices(order, |members|)
  {
    forall a, b {:trigger Before(members, order[a], order[b])} ::
      0 <= a < b < |order| ==> Before(members, order[a], order[b])
  }

  lemma {:induction false} InsertKeepsRank(members: seq<PoolMember>, order: seq<nat>, index: nat)
    requires index < |members| && Indices(order, index) && Ranked(members, order)
    ensures Ranked(members, Insert(members, order, index))
    ensures forall k :: 0 <= k < |order| + 1 ==>
              Insert(members, order, index)[k] == index || Insert(members, order, index)[k] in order
    ensures index in Insert(members, order, index)
    ensures forall i :: i in order ==> i in Insert(members, order, index)
  {
    var last := |order| - 1;
    if order == [] || members[order[last]].priority >= members[index].priority {
      forall a | 0 <= a < |order|
        ensures Before(members, order[a], index)
      {
        assert a < last ==> Before(members, order[a], order[last]);
      }
    } else {
      InsertKeepsRank(members, order[..last], index);
      var inner := Insert(members, order[..last], index);
      forall a | 0 <= a < |inner|
        ensures Before(members, inner[a], order[last])
      {
        if inner[a] != index {
          var k :| 0 <= k < last && order[k] == inner[a];
          assert Before(members, order[k], order[last]);
        }
      }
    }
  }

  /** The order ranks the members and leaves none out. */
  lemma {:induction false} OrderIsRanking(members: seq<PoolMember>, n: nat)
    requires n <= |members|
    ensures Ranked(members, Order(members, n))
    ensures forall i :: 0 <= i < n ==> i in Order(members, n)
  {
    if n > 0 {
      OrderIsRanking(members, n - 1);
      InsertKeepsRank(members, Order(members, n - 1), n - 1);
    }
  }

  function Listed(members: seq<PoolMember>, order: seq<nat>): (served: seq<PoolMember>)
    requires Indices(order, |members|)
    ensures |served| == |order| && forall k :: 0 <= k < |order| ==> served[k] == members[order[k]]
  {
    seq(|order|, k requires 0 <= k < |order| => members[order[k]])
  }

  function Serving(members: seq<PoolMember>): (served: seq<PoolMember>)
    ensures |served| == |members|
  {
    Listed(members, Order(members, |members|))
  }

  // ----- handing out the free bytes -----

  predicate ValidBlocks(members: seq<PoolMember>) {
    forall i :: 0 <= i < |members| ==> IsPowerOfTwo(members[i].block)
  }

  lemma BlocksArePositive(members: seq<PoolMember>)
    requires ValidBlocks(members)
    ensures PositiveBlocks(members) && PositiveBlocks(Serving(members))
  {
    forall i | 0 <= i < |members|
      ensures 0 < members[i].block
    {
      assert IsPowerOfTwo(members[i].block);
    }
  }

  function Granted(free: int, member: PoolMember): (g: int)
    requires 0 <= free && 0 < member.block
    ensures 0 <= g <= free && g <= member.Wanted()
  {
    AlignDown(Min(member.Wanted(), free), member.block)
  }

  ghost predicate PositiveBlocks(members: seq<PoolMember>) {
    forall i :: 0 <= i < |members| ==> 0 < members[i].block
  }

  /** Each member in turn gets the whole blocks it wants from what is left. */
  ghost function Shares(free: int, served: seq<PoolMember>): (grants: seq<int>)
    requires 0 <= free && PositiveBlocks(served)
    ensures |grants| == |served|
  {
    if served == [] then []
    else
      var g := Granted(free, served[0]);
      [g] + Shares(free - g, served[1..])
  }

  lemma {:induction false} SharesFit(free: int, served: seq<PoolMember>)
    requires 0 <= free && PositiveBlocks(served)
    ensures 0 <= Sum(Shares(free, served)) <= free
  {
    if served != [] {
      var g := Granted(free, served[0]);
      SharesFit(free - g, served[1..]);
      SumPrepended(g, Shares(free - g, served[1..]));
    }
  }

  /** Each member's share is the most whole blocks it wants of what those served before
      it have left. */
  lemma {:induction false} ShareIsGreedy(free: int, served: seq<PoolMember>, k: nat)
    requires 0 <= free && PositiveBlocks(served) && k < |served|
    ensures
      var grants := Shares(free, served);
      0 <= Sum(grants[..k]) <= free && grants[k] == Granted(free - Sum(grants[..k]), served[k])
  {
    var g := Granted(free, served[0]);
    var rest := Shares(free - g, served[1..]);
    if 0 < k {
      ShareIsGreedy(free - g, served[1..], k - 1);
      assert Shares(free, served)[..k] == [g] + rest[..k - 1];
      SumPrepended(g, rest[..k - 1]);
    }
  }

  /** If a member is left at least one of its blocks short, everyone served after
      it together gets less than that block. */
  lemma {:induction false} ShortMemberEndsThePool(free: int, served: seq<PoolMember>, k: nat)
    requires 0 <= free && PositiveBlocks(served) && k < |served|
    requires served[k].block <= served[k].Wanted() - Shares(free, served)[k]
    ensures Sum(Shares(free, served)[k + 1..]) < served[k].block
  {
    var g := Granted(free, served[0]);
    var rest := Shares(free - g, served[1..]);
    if k == 0 {
      assert Shares(free, served)[1..] == rest;
      SharesFit(free - g, served[1..]);
    } else {
      ShortMemberEndsThePool(free - g, served[1..], k - 1);
      assert Shares(free, served)[k + 1..] == rest[k..];
    }
  }

  /** One member's share of the result. */
  predicate Share(member: PoolMember, grant: int, allocation: PoolAllocation) {
    && 0 <= grant <= member.Wanted()
    && allocation.ceiling == member.charged + grant
    && allocation.unmet == member.Wanted() - grant
  }

  ghost predicate Distinct(order: seq<nat>) {
    forall a, b :: 0 <= a < b < |order| ==> order[a] != order[b]
  }

  /** The first `k` in the order have their grants and allocations, the others nothing
      yet, and the rest is handed out from what is free. */
  ghost predicate HandedOut(
    free0: int, free: int, members: seq<PoolMember>, order: seq<nat>, served: seq<PoolMember>, k: nat,
    granted: seq<int>, filled: seq<PoolAllocation>)
    requires Indices(order, |members|) && PositiveBlocks(served)
  {
    && 0 <= free <= free0 && Sum(granted) + free == free0
    && |granted| == |filled| == |members| && k <= |order| == |served|
    && var grants := Shares(free0, served);
    && grants[k..] == Shares(free, served[k..])
    && (forall j :: k <= j < |order| ==> granted[order[j]] == 0)
    && (forall j :: 0 <= j < k ==> granted[order[j]] == grants[j] <= free0)
    && (forall j :: 0 <= j < k ==> Share(members[order[j]], grants[j], filled[order[j]]))
  }

  lemma HandOutNext(
    free0: int, free: int, members: seq<PoolMember>, order: seq<nat>, served: seq<PoolMember>, k: nat,
    granted: seq<int>, filled: seq<PoolAllocation>, allocation: PoolAllocation)
    requires Indices(order, |members|) && Distinct(order) && PositiveBlocks(served) && k < |order|
    requires HandedOut(free0, free, members, order, served, k, granted, filled)
    requires served[k] == members[order[k]] && Share(served[k], Granted(free, served[k]), allocation)
    ensures
      var grant := Granted(free, served[k]);
      HandedOut(free0, free - grant, members, order, served, k + 1, granted[order[k] := grant],
                filled[order[k] := allocation])
  {
    NextGrant(free, served, k, Shares(free0, served));
    SumUpdated(granted, order[k], Granted(free, served[k]));
  }

  /** Hand `free0` out in the given order, filling the allocations in place. */
  method HandOut(free0: U64, members: seq<PoolMember>, order: seq<nat>, ghost served: seq<PoolMember>)
    returns (allocations: seq<PoolAllocation>, ghost granted: seq<int>)
    requires Indices(order, |members|) && Distinct(order)
    requires |served| == |order| && forall k :: 0 <= k < |order| ==> served[k] == members[order[k]]
    requires PositiveBlocks(served)
    ensures |allocations| == |granted| == |members|
    ensures Sum(granted) <= free0
    ensures forall k :: 0 <= k < |order| ==> Share(members[order[k]], Shares(free0, served)[k], allocations[order[k]])
    ensures forall k :: 0 <= k < |order| ==> granted[order[k]] == Shares(free0, served)[k] <= free0
  {
    var filled := new PoolAllocation[|members|](_ => PoolAllocation(0, 0));
    var free := free0;
    granted := seq(|members|, _ => 0);
    SumOfZeros(|members|);
    assert served[0..] == served;
    for k := 0 to |order|
      invariant 0 <= free <= free0
      invariant HandedOut(free0, free, members, order, served, k, granted, filled[..])
    {
      var index := order[k];
      var member := members[index];
      var grant := Granted(free, member);
      var allocation := PoolAllocation(member.charged + grant, member.Wanted() - grant);
      assert served[k] == member;
      ghost var after := filled[..][index := allocation];
      HandOutNext(free0, free, members, order, served, k, granted, filled[..], allocation);
      free, granted := free - grant, granted[index := grant];
      assert HandedOut(free0, free, members, order, served, k + 1, granted, after);
      filled[index] := allocation;
      assert filled[..] == after;
    }
    allocations := filled[..];
  }

  lemma NextGrant(free: int, served: seq<PoolMember>, k: nat, grants: seq<int>)
    requires 0 <= free && PositiveBlocks(served) && k < |served| == |grants|
    requires grants[k..] == Shares(free, served[k..])
    ensures grants[k] == Granted(free, served[k])
    ensures grants[k + 1..] == Shares(free - grants[k], served[k + 1..])
  {
    assert served[k..][0] == served[k];
    assert served[k..][1..] == served[k + 1..];
    assert grants[k..][0] == grants[k];
    assert grants[k..][1..] == grants[k + 1..];
  }

  /** What the round may rely on. */
  ghost predicate FairlyAllocated(pool: U64, members: seq<PoolMember>, allocations: seq<PoolAllocation>) {
    && |allocations| == |members|
    && (forall i :: 0 <= i < |members| ==>
          && members[i].charged <= allocations[i].ceiling
          && allocations[i].ceiling + allocations[i].unmet == Max(members[i].desired, members[i].charged))
    && Sum(Ceilings(allocations)) <= Max(pool, Sum(Charges(members)))
    && (pool <= Sum(Charges(members)) ==>
          forall i :: 0 <= i < |members| ==> allocations[i].ceiling == members[i].charged)
  }

  /** The result follows the served order and nothing else. */
  ghost predicate ServedInOrder(pool: U64, members: seq<PoolMember>, allocations: seq<PoolAllocation>) {
    && |allocations| == |members| && PositiveBlocks(Serving(members))
    && var order := Order(members, |members|);
    && forall k :: 0 <= k < |members| ==>
         allocations[order[k]].ceiling ==
           members[order[k]].charged + Shares(Max(0, pool - Sum(Charges(members))), Serving(members))[k]
  }

  method AllocatePool(pool: U64, members: seq<PoolMember>) returns (r: PoolResult)
    ensures r.InvalidBlock? <==> !ValidBlocks(members)
    ensures r.Overflow? <==> ValidBlocks(members) && U64_MAX < Sum(Charges(members))
    ensures r.Allocated? ==> FairlyAllocated(pool, members, r.allocations)
    ensures r.Allocated? ==> ServedInOrder(pool, members, r.allocations)
  {
    if exists i :: 0 <= i < |members| && !IsPowerOfTwo(members[i].block) {
      return InvalidBlock;
    }
    var charged := ChargedTotal(members);
    if charged.None? {
      return Overflow;
    }
    BlocksArePositive(members);
    OrderIsRanking(members, |members|);
    var free, order := SatSub(pool, charged.value), Order(members, |members|);
    assert Distinct(order) by {
      assert forall a, b :: 0 <= a < b < |order| ==> Before(members, order[a], order[b]);
    }
    var allocations, granted := HandOut(free, members, order, Serving(members));
    AllocationIsFair(pool, members, order, free, granted, allocations);
    r := Allocated(allocations);
  }

  lemma AllocationIsFair(
    pool: U64, members: seq<PoolMember>, order: seq<nat>, free: U64, granted: seq<int>,
    allocations: seq<PoolAllocation>)
    requires |allocations| == |granted| == |members| && Sum(granted) <= free
    requires free == Max(0, pool - Sum(Charges(members)))
    requires Indices(order, |members|) && forall i :: 0 <= i < |members| ==> i in order
    requires forall k :: 0 <= k < |order| ==>
      granted[order[k]] <= free && Share(members[order[k]], granted[order[k]], allocations[order[k]])
    ensures FairlyAllocated(pool, members, allocations)
  {
    forall i | 0 <= i < |members|
      ensures granted[i] <= free && Share(members[i], granted[i], allocations[i])
    {
      assert i in order;
      var k :| 0 <= k < |order| && order[k] == i;
    }
    SumAdded(Charges(members), granted, Ceilings(allocations));
  }

  /** The total charge, unless it overflows. */
  method ChargedTotal(members: seq<PoolMember>) returns (total: Option<U64>)
    ensures total == if Sum(Charges(members)) <= U64_MAX then Some(Sum(Charges(members))) else None
  {
    var sum: U64 := 0;
    ChargesGrow(members, 0);
    for k := 0 to |members|
      invariant sum == Sum(Charges(members[..k])) <= Sum(Charges(members))
    {
      assert members[..k + 1][..k] == members[..k];
      assert Charges(members[..k + 1])[..k] == Charges(members[..k]);
      ChargesGrow(members, k + 1);
      if sum + members[k].charged > U64_MAX {
        return None;
      }
      sum := sum + members[k].charged;
    }
    assert members[..|members|] == members;
    return Some(sum);
  }

  lemma {:induction false} ChargesGrow(members: seq<PoolMember>, k: nat)
    requires k <= |members|
    ensures Sum(Charges(members[..k])) <= Sum(Charges(members))
    decreases |members| - k
  {
    if k < |members| {
      ChargesGrow(members, k + 1);
      assert Charges(members[..k + 1])[..k] == Charges(members[..k]);
    } else {
      assert members[..k] == members;
    }
  }

  // ----- distinct priorities: the listing order does not matter -----

  ghost predicate Descending(served: seq<PoolMember>) {
    forall a, b {:trigger Above(served, a, b)} :: 0 <= a < b < |served| ==> Above(served, a, b)
  }

  ghost predicate Above(served: seq<PoolMember>, a: nat, b: nat)
    requires a < |served| && b < |served|
  {
    served[a].priority > served[b].priority
  }

  ghost predicate DistinctPriorities(members: seq<PoolMember>) {
    forall a, b :: 0 <= a < b < |members| ==> members[a].priority != members[b].priority
  }

  lemma {:induction false} DescendingIsUnique(s: seq<PoolMember>, t: seq<PoolMember>)
    requires Descending(s) && Descending(t) && multiset(s) == multiset(t)
    ensures s == t
  {
    assert |multiset(s)| == |s| && |multiset(t)| == |t|;
    if s != [] {
      FirstIsHighest(s, t);
      RestDescends(s);
      RestDescends(t);
      DescendingIsUnique(s[1..], t[1..]);
      assert s == [s[0]] + s[1..] && t == [t[0]] + t[1..];
    }
  }

  lemma RestDescends(s: seq<PoolMember>)
    requires Descending(s) && s != []
    ensures Descending(s[1..]) && multiset(s[1..]) == multiset(s) - multiset{s[0]}
  {
    assert s == [s[0]] + s[1..];
    forall a, b | 0 <= a < b < |s[1..]|
      ensures Above(s[1..], a, b)
    {
      assert Above(s, a + 1, b + 1);
    }
  }

  lemma FirstIsHighest(s: seq<PoolMember>, t: seq<PoolMember>)
    requires Descending(s) && Descending(t) && multiset(s) == multiset(t) && 0 < |s| && 0 < |t|
    ensures s[0] == t[0]
  {
    assert s[0] in multiset(t) && t[0] in multiset(s);
    var i :| 0 <= i < |t| && t[i] == s[0];
    var j :| 0 <= j < |s| && s[j] == t[0];
    assert (0 < i ==> Above(t, 0, i)) && (0 < j ==> Above(s, 0, j));
  }

  lemma {:induction false} InsertLists(members: seq<PoolMember>, order: seq<nat>, index: nat)
    requires index < |members| && Indices(order, index)
    ensures multiset(Listed(members, Insert(members, order, index)))
            == multiset(Listed(members, order)) + multiset{members[index]}
    ensures Sum(Charges(Listed(members, Insert(members, order, index))))
            == Sum(Charges(Listed(members, order))) + members[index].charged
  {
    var last := |order| - 1;
    if order == [] || members[order[last]].priority >= members[index].priority {
      AppendLists(members, order, index);
    } else {
      InsertLists(members, order[..last], index);
      AppendLists(members, Insert(members, order[..last], index), order[last]);
      AppendLists(members, order[..last], order[last]);
      assert order == order[..last] + [order[last]];
    }
  }

  lemma AppendLists(members: seq<PoolMember>, order: seq<nat>, index: nat)
    requires index < |members| && Indices(order, |members|)
    ensures Listed(members, order + [index]) == Listed(members, order) + [members[index]]
    ensures Sum(Charges(Listed(members, order + [index]))) == Sum(Charges(Listed(members, order)))
            + members[index].charged
  {
    assert Listed(members, order + [index]) == Listed(members, order) + [members[index]];
    AppendCharge(Listed(members, order), members[index]);
  }

  lemma AppendCharge(members: seq<PoolMember>, member: PoolMember)
    ensures Sum(Charges(members + [member])) == Sum(Charges(members)) + member.charged
  {
    assert Charges(members + [member])[..|members|] == Charges(members);
  }

  lemma {:induction false} OrderLists(members: seq<PoolMember>, n: nat)
    requires n <= |members|
    ensures multiset(Listed(members, Order(members, n))) == multiset(members[..n])
    ensures Sum(Charges(Listed(members, Order(members, n)))) == Sum(Charges(members[..n]))
  {
    if n > 0 {
      OrderLists(members, n - 1);
      InsertLists(members, Order(members, n - 1), n - 1);
      OneMoreMember(members, n);
    }
  }

  lemma OneMoreMember(members: seq<PoolMember>, n: nat)
    requires 0 < n <= |members|
    ensures multiset(members[..n]) == multiset(members[..n - 1]) + multiset{members[n - 1]}
    ensures Sum(Charges(members[..n])) == Sum(Charges(members[..n - 1])) + members[n - 1].charged
  {
    AppendCharge(members[..n - 1], members[n - 1]);
    assert members[..n] == members[..n - 1] + [members[n - 1]];
  }

  /** With distinct priorities every listing of the members is served alike. */
  lemma ServedAlike(members: seq<PoolMember>, members': seq<PoolMember>)
    requires DistinctPriorities(members) && DistinctPriorities(members') && multiset(members) == multiset(members')
    ensures Serving(members) == Serving(members') && Descending(Serving(members))
    ensures Sum(Charges(members)) == Sum(Charges(members'))
  {
    forall ms | ms == members || ms == members'
      ensures Descending(Serving(ms)) && multiset(Serving(ms)) == multiset(ms)
      ensures Sum(Charges(Serving(ms))) == Sum(Charges(ms))
    {
      OrderIsRanking(ms, |ms|);
      OrderLists(ms, |ms|);
      assert ms[..|ms|] == ms;
      RankedDescends(ms, Order(ms, |ms|));
    }
    DescendingIsUnique(Serving(members), Serving(members'));
  }

  lemma RankedDescends(members: seq<PoolMember>, order: seq<nat>)
    requires Indices(order, |members|) && Ranked(members, order) && DistinctPriorities(members)
    ensures Descending(Listed(members, order))
  {
    forall a, b | 0 <= a < b < |order|
      ensures Above(Listed(members, order), a, b)
    {
      assert Before(members, order[a], order[b]);
    }
  }

  /** A member's ceiling does not depend on where it is listed. */
  lemma ListingOrderIsIrrelevant(
    pool: U64, members: seq<PoolMember>, allocations: seq<PoolAllocation>, i: nat,
    members': seq<PoolMember>, allocations': seq<PoolAllocation>, j: nat)
    requires DistinctPriorities(members) && DistinctPriorities(members') && multiset(members) == multiset(members')
    requires ServedInOrder(pool, members, allocations) && ServedInOrder(pool, members', allocations')
    requires i < |members| && j < |members'| && members[i] == members'[j]
    ensures allocations[i].ceiling == allocations'[j].ceiling
  {
    ServedAlike(members, members');
    var k := Place(members, i);
    var l := Place(members', j);
    assert Serving(members)[k] == members[i] && Serving(members)[l] == members[i];
    assert (k < l ==> Above(Serving(members), k, l)) && (l < k ==> Above(Serving(members), l, k));
  }

  lemma Place(members: seq<PoolMember>, i: nat) returns (k: nat)
    requires i < |members|
    ensures k < |members| && Order(members, |members|)[k] == i && Serving(members)[k] == members[i]
  {
    OrderIsRanking(members, |members|);
    var order := Order(members, |members|);
    assert i in order;
    k :| 0 <= k < |order| && order[k] == i;
  }
}
