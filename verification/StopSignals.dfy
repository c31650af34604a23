/** The guest service's stop signal, over every interleaving of threads that
    register a callback and threads that cancel. A registrar holds the callback
    lock from before it reads the flag until it has pushed its callback or seen
    cancellation; a canceller sets the flag first and then holds the lock while it
    runs every callback pushed so far. */
module StopSignals {
  datatype Registrar = Waiting | Holding | SawOpen | SawCancelled | MustRun | Registered

  datatype Canceller = Idle | FlagSet | Draining | Finished

  datatype Owner = ByRegistrar(i: nat) | ByCanceller(j: nat) | Nobody

  /** Registrar `i` registers callback `i`; `runs` lists the callbacks in the order they ran. */
  datatype World = World(
    cancelled: bool,
    lock: Owner,
    pending: seq<nat>,
    registrars: seq<Registrar>,
    cancellers: seq<Canceller>,
    runs: seq<nat>
  )

  datatype Move =
    | Lock(i: nat)
    | Check(i: nat)
    | Push(i: nat)
    | Unlock(i: nat)
    | RunNow(i: nat)
    | SetFlag(j: nat)
    | StartDrain(j: nat)
    | RunPending(j: nat)
    | EndDrain(j: nat)

  /** The thread and stage a move belongs to. */
  predicate Enabled(move: Move, w: World) {
    match move
    case Lock(i) => i < |w.registrars| && w.registrars[i].Waiting? && w.lock.Nobody?
    case Check(i) => i < |w.registrars| && w.registrars[i].Holding?
    case Push(i) => i < |w.registrars| && w.registrars[i].SawOpen?
    case Unlock(i) => i < |w.registrars| && w.registrars[i].SawCancelled?
    case RunNow(i) => i < |w.registrars| && w.registrars[i].MustRun?
    case SetFlag(j) => j < |w.cancellers| && w.cancellers[j].Idle?
    case StartDrain(j) => j < |w.cancellers| && w.cancellers[j].FlagSet? && w.lock.Nobody?
    case RunPending(j) => j < |w.cancellers| && w.cancellers[j].Draining? && w.pending != []
    case EndDrain(j) => j < |w.cancellers| && w.cancellers[j].Draining? && w.pending == []
  }

  function Next(move: Move, w: World): World
    requires Enabled(move, w)
  {
    match move
    case Lock(i) => w.(registrars := w.registrars[i := Holding], lock := ByRegistrar(i))
    case Check(i) => w.(registrars := w.registrars[i := if w.cancelled then SawCancelled else SawOpen])
    case Push(i) => w.(registrars := w.registrars[i := Registered], pending := w.pending + [i], lock := Nobody)
    case Unlock(i) => w.(registrars := w.registrars[i := MustRun], lock := Nobody)
    case RunNow(i) => w.(registrars := w.registrars[i := Registered], runs := w.runs + [i])
    case SetFlag(j) => w.(cancelled := true, cancellers := w.cancellers[j := FlagSet])
    case StartDrain(j) => w.(cancellers := w.cancellers[j := Draining], lock := ByCanceller(j))
    case RunPending(j) => w.(pending := w.pending[1..], runs := w.runs + [w.pending[0]])
    case EndDrain(j) => w.(cancellers := w.cancellers[j := Finished], lock := Nobody)
  }

  ghost predicate Initial(w: World) {
    && !w.cancelled && w.lock.Nobody? && w.pending == [] && w.runs == []
    && (forall i :: 0 <= i < |w.registrars| ==> w.registrars[i].Waiting?)
    && (forall j :: 0 <= j < |w.cancellers| ==> w.cancellers[j].Idle?)
  }

  ghost predicate Step(worlds: seq<World>, moves: seq<Move>, i: int) {
    0 <= i < |moves| && i + 1 < |worlds| && Enabled(moves[i], worlds[i]) && worlds[i + 1] == Next(moves[i], worlds[i])
  }

  ghost predicate Run(worlds: seq<World>, moves: seq<Move>) {
    && |worlds| == |moves| + 1 && Initial(worlds[0])
    && forall i {:trigger Step(worlds, moves, i)} :: 0 <= i < |moves| ==> Step(worlds, moves, i)
  }

  // ----- what every reachable world satisfies -----

  predicate Locks(r: Registrar) { r.Holding? || r.SawOpen? || r.SawCancelled? }

  /** The lock is held by exactly the thread whose stage says so. */
  ghost predicate LockHeld(w: World) {
    && (forall i :: 0 <= i < |w.registrars| ==> (Locks(w.registrars[i]) <==> w.lock == ByRegistrar(i)))
    && (forall j :: 0 <= j < |w.cancellers| ==> (w.cancellers[j].Draining? <==> w.lock == ByCanceller(j)))
    && (w.lock.ByRegistrar? ==> w.lock.i < |w.registrars|)
    && (w.lock.ByCanceller? ==> w.lock.j < |w.cancellers|)
  }

  /** How often callback `i` has run or is waiting to. */
  ghost function Occurrences(w: World, i: nat): nat { multiset(w.runs)[i] + multiset(w.pending)[i] }

  predicate IsRegistered(w: World, i: nat) { i < |w.registrars| && w.registrars[i].Registered? }

  /** A callback whose registration returned is waiting, or has run, once; others neither. */
  ghost predicate Counted(w: World) {
    && (forall i: nat {:trigger Occurrences(w, i)} ::
          Occurrences(w, i) == if IsRegistered(w, i) then 1 else 0)
    && FollowsFlag(w)
  }

  /** Nothing runs, or is about to, before the flag is set. */
  ghost predicate FollowsFlag(w: World) {
    && (w.runs != [] ==> w.cancelled)
    && (forall i :: 0 <= i < |w.registrars| && (w.registrars[i].SawCancelled? || w.registrars[i].MustRun?) ==>
        w.cancelled)
  }

  /** Once the flag is set, whatever is or will be pushed still has a canceller to come. */
  ghost predicate Attended(w: World) {
    && (forall j :: 0 <= j < |w.cancellers| ==> (!w.cancellers[j].Idle? ==> w.cancelled))
    && (w.cancelled && w.pending != [] ==>
          exists j :: 0 <= j < |w.cancellers| && (w.cancellers[j].FlagSet? || w.cancellers[j].Draining?))
    && (forall i :: 0 <= i < |w.registrars| && w.cancelled && w.registrars[i].SawOpen? ==>
          exists j :: 0 <= j < |w.cancellers| && w.cancellers[j].FlagSet?)
  }

  /** Once a cancel has returned, nothing is waiting and nothing will be pushed. */
  ghost predicate Drained(w: World) {
    (exists j :: 0 <= j < |w.cancellers| && w.cancellers[j].Finished?) ==>
      && w.cancelled && w.pending == []
      && forall i :: 0 <= i < |w.registrars| ==> !w.registrars[i].SawOpen?
  }

  ghost predicate Inv(w: World) { LockHeld(w) && Counted(w) && Attended(w) && Drained(w) }

  lemma AppendCounts(s: seq<nat>, x: nat, i: nat)
    ensures multiset(s + [x])[i] == multiset(s)[i] + if i == x then 1 else 0
  {
  }

  lemma DropCounts(s: seq<nat>, i: nat)
    requires s != []
    ensures multiset(s[1..])[i] == multiset(s)[i] - if i == s[0] then 1 else 0
  {
    assert s == [s[0]] + s[1..];
  }

  /** Pushing or running a callback adds one occurrence of it; draining moves one. */
  lemma StepCounts(move: Move, w: World, i: nat)
    requires Enabled(move, w)
    ensures Occurrences(Next(move, w), i) == Occurrences(w, i) + if move in {Push(i), RunNow(i)} then 1 else 0
  {
    match move
    case Push(k) => AppendCounts(w.pending, k, i);
    case RunNow(k) => AppendCounts(w.runs, k, i);
    case RunPending(_) =>
      AppendCounts(w.runs, w.pending[0], i);
      DropCounts(w.pending, i);
    case _ =>
  }

  lemma StepRegisters(move: Move, w: World, i: nat)
    requires Enabled(move, w)
    ensures IsRegistered(Next(move, w), i) <==> IsRegistered(w, i) || move in {Push(i), RunNow(i)}
    ensures move in {Push(i), RunNow(i)} ==> !IsRegistered(w, i)
  {
  }

  lemma StepFollowsFlag(move: Move, w: World)
    requires LockHeld(w) && Counted(w) && Attended(w) && Enabled(move, w)
    ensures FollowsFlag(Next(move, w))
  {
  }

  lemma StepKeepsCounts(move: Move, w: World)
    requires LockHeld(w) && Counted(w) && Attended(w) && Enabled(move, w)
    ensures Counted(Next(move, w))
  {
    var w' := Next(move, w);
    forall i: nat
      ensures Occurrences(w', i) == if IsRegistered(w', i) then 1 else 0
    {
      StepCounts(move, w, i);
      StepRegisters(move, w, i);
      assert Occurrences(w, i) == if IsRegistered(w, i) then 1 else 0;
    }
    StepFollowsFlag(move, w);
  }

  lemma StepKeepsInv(move: Move, w: World)
    requires Inv(w) && Enabled(move, w)
    ensures Inv(Next(move, w))
  {
    StepKeepsCounts(move, w);
    StepKeepsAttendance(move, w);
    StepKeepsDrained(move, w);
  }

  lemma StepKeepsDrained(move: Move, w: World)
    requires LockHeld(w) && Attended(w) && Drained(w) && Enabled(move, w)
    ensures Drained(Next(move, w))
  {
    var w' := Next(move, w);
    if j :| 0 <= j < |w'.cancellers| && w'.cancellers[j].Finished? {
      assert w.cancellers[j].Finished? || move == EndDrain(j);
    }
  }

  lemma StepKeepsAttendance(move: Move, w: World)
    requires LockHeld(w) && Attended(w) && Enabled(move, w)
    ensures Attended(Next(move, w))
  {
    var w' := Next(move, w);
    if move.SetFlag? {
      assert w'.cancellers[move.j].FlagSet?;
    } else if w.cancelled && (w.pending != [] || exists i :: 0 <= i < |w.registrars| && w.registrars[i].SawOpen?) {
      var j :| 0 <= j < |w.cancellers| && (w.cancellers[j].FlagSet? || w.cancellers[j].Draining?);
      assert w'.cancellers[j] == w.cancellers[j] || w'.cancellers[j].Draining? || move.EndDrain?;
    }
  }

  lemma {:induction false} RunKeepsInv(worlds: seq<World>, moves: seq<Move>, i: nat)
    requires Run(worlds, moves) && i < |worlds|
    ensures Inv(worlds[i])
  {
    if i > 0 {
      RunKeepsInv(worlds, moves, i - 1);
      assert Step(worlds, moves, i - 1);
      StepKeepsInv(moves[i - 1], worlds[i - 1]);
    }
  }

  // ----- main results -----

  /** At most once, and never before cancellation. */
  lemma RunsAtMostOnceAfterCancellation(worlds: seq<World>, moves: seq<Move>, n: nat, i: nat)
    requires Run(worlds, moves) && n < |worlds|
    ensures multiset(worlds[n].runs)[i] <= 1
    ensures worlds[n].runs != [] ==> worlds[n].cancelled
  {
    RunKeepsInv(worlds, moves, n);
    assert Occurrences(worlds[n], i) <= 1;
  }

  /** A step sets the flag at most, or runs one callback, once the flag is set. */
  lemma StepCancelsOrRuns(worlds: seq<World>, moves: seq<Move>, n: nat)
    requires Run(worlds, moves) && n < |moves|
    ensures
      var w, w' := worlds[n], worlds[n + 1];
      || (w'.runs == w.runs && (w.cancelled ==> w'.cancelled))
      || (w.cancelled && w'.cancelled && |w'.runs| == |w.runs| + 1 && w'.runs == w.runs + [w'.runs[|w.runs|]])
  {
    RunKeepsInv(worlds, moves, n);
    assert Step(worlds, moves, n);
  }

  /** Once any cancel has returned, whatever others are doing, each callback whose
      registration has returned has run exactly once. */
  lemma RunsExactlyOnce(worlds: seq<World>, moves: seq<Move>, n: nat, i: nat)
    requires Run(worlds, moves) && n < |worlds|
    requires exists j :: 0 <= j < |worlds[n].cancellers| && worlds[n].cancellers[j].Finished?
    requires i < |worlds[n].registrars| && worlds[n].registrars[i].Registered?
    ensures multiset(worlds[n].runs)[i] == 1
  {
    RunKeepsInv(worlds, moves, n);
    assert Occurrences(worlds[n], i) == 1;
  }

  /** No interleaving gets stuck: while any thread is not done, some thread can move. */
  lemma NobodyIsStuck(worlds: seq<World>, moves: seq<Move>, n: nat) returns (move: Move)
    requires Run(worlds, moves) && n < |worlds|
    requires || (exists i :: 0 <= i < |worlds[n].registrars| && !worlds[n].registrars[i].Registered?)
             || (exists j :: 0 <= j < |worlds[n].cancellers| && !worlds[n].cancellers[j].Finished?)
    ensures Enabled(move, worlds[n])
  {
    RunKeepsInv(worlds, moves, n);
    var w := worlds[n];
    match w.lock {
      case ByRegistrar(i) =>
        move := if w.registrars[i].Holding? then Check(i) else if w.registrars[i].SawOpen? then Push(i) else Unlock(i);
      case ByCanceller(j) =>
        move := if w.pending == [] then EndDrain(j) else RunPending(j);
      case Nobody =>
        if i :| 0 <= i < |w.registrars| && !w.registrars[i].Registered? {
          move := if w.registrars[i].Waiting? then Lock(i) else RunNow(i);
        } else {
          var j :| 0 <= j < |w.cancellers| && !w.cancellers[j].Finished?;
          move := if w.cancellers[j].Idle? then SetFlag(j) else StartDrain(j);
        }
    }
  }
}
