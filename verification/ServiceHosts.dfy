/** The service host's event loop beside its worker thread and the stop signal:
    what it publishes to the service control manager, over every interleaving. */
module ServiceHosts {
  import S = StopSignals

  datatype Event = InitializedEvent | FinishedEvent(ok: bool) | StopEvent

  datatype Published = Running | StopPending

  /** `Spawned`: before its first look at the stop signal. `Initialized`: past its
      second look, and about to say so. */
  datatype Worker = Spawned | Initializing | Initialized | Working | Exited

  /** `Deciding`: an initialized event was received and the stop signal was not
      set; `Running` is published next. */
  datatype Loop = Receiving | Deciding | Returned(ok: bool)

  /** `announced`: the stop callback ran, as it does exactly once after cancellation. */
  datatype World = World(
    cancelled: bool,
    announced: bool,
    queue: seq<Event>,
    worker: Worker,
    loop: Loop,
    deadline: bool,
    statusFailed: bool,
    published: seq<Published>
  )

  datatype Move =
    | Cancel
    | Announce
    | WorkerLooks
    | WorkerInitializes(ok: bool)
    | WorkerReports
    | WorkerExits(ok: bool)
    | Receive(ok: bool)
    | Publish(ok: bool)

  predicate Enabled(move: Move, w: World) {
    match move
    case Cancel => true
    case Announce => w.cancelled && !w.announced
    case WorkerLooks => w.worker.Spawned?
    case WorkerInitializes(_) => w.worker.Initializing?
    case WorkerReports => w.worker.Initialized?
    case WorkerExits(_) => w.worker.Working?
    case Receive(_) => w.loop.Receiving? && w.queue != []
    case Publish(_) => w.loop.Deciding?
  }

  function Exit(w: World, ok: bool): World { w.(worker := Exited, queue := w.queue + [FinishedEvent(ok)]) }

  function Next(move: Move, w: World): World
    requires Enabled(move, w)
  {
    match move
    case Cancel => w.(cancelled := true)
    case Announce => w.(announced := true, queue := w.queue + [StopEvent])
    case WorkerLooks => if w.cancelled then Exit(w, true) else w.(worker := Initializing)
    case WorkerInitializes(ok) =>
      if !ok then Exit(w, false) else if w.cancelled then Exit(w, true) else w.(worker := Initialized)
    case WorkerReports => w.(worker := Working, queue := w.queue + [InitializedEvent])
    case WorkerExits(ok) => Exit(w, ok)
    case Receive(ok) =>
      var rest := w.(queue := w.queue[1..]);
      (match w.queue[0]
       case StopEvent =>
         if w.deadline then rest
         else rest.(deadline := true, published := w.published + [StopPending], statusFailed := w.statusFailed || !ok)
       case InitializedEvent => if w.cancelled then rest else rest.(loop := Deciding)
       case FinishedEvent(finished) => rest.(loop := Returned(finished && !w.statusFailed)))
    case Publish(ok) =>
      w.(loop := Receiving, published := w.published + [Running], statusFailed := w.statusFailed || !ok,
         cancelled := w.cancelled || !ok)
  }

  ghost predicate Initial(w: World) {
    && w.queue == [] && w.worker.Spawned? && w.loop.Receiving? && !w.deadline && !w.statusFailed && w.published == []
    && !w.cancelled && !w.announced
  }

  ghost predicate Step(worlds: seq<World>, moves: seq<Move>, i: int) {
    0 <= i < |moves| && i + 1 < |worlds| && Enabled(moves[i], worlds[i]) && worlds[i + 1] == Next(moves[i], worlds[i])
  }

  ghost predicate Run(worlds: seq<World>, moves: seq<Move>) {
    && |worlds| == |moves| + 1 && Initial(worlds[0])
    && forall i {:trigger Step(worlds, moves, i)} :: 0 <= i < |moves| ==> Step(worlds, moves, i)
  }

  // ----- what every reachable world satisfies -----

  function Count<T(==)>(x: T, s: seq<T>): nat { multiset(s)[x] }

  /** Where the one initialized event is: not yet sent, queued, being decided on, or spent. */
  ghost predicate InitializedOnce(w: World) {
    var sent := if w.worker.Working? || w.worker.Exited? then 1 else 0;
    Count(InitializedEvent, w.queue) + (if w.loop.Deciding? then 1 else 0) + Count(Running, w.published) <= sent
  }

  ghost predicate StopOnce(w: World) {
    && Count(StopEvent, w.queue) + Count(StopPending, w.published) <= (if w.announced then 1 else 0)
    && (w.announced ==> w.cancelled)
    && (w.deadline <==> StopPending in w.published)
  }

  /** `Running` only ever precedes `StopPending`, and is not about to follow it. */
  ghost predicate InOrder(w: World) {
    && (forall i, j :: 0 <= i < j < |w.published| ==> !(w.published[i].StopPending? && w.published[j].Running?))
    && (w.loop.Deciding? ==> !w.deadline)
  }

  ghost predicate Inv(w: World) { InitializedOnce(w) && StopOnce(w) && InOrder(w) }

  lemma CountAppend<T>(x: T, s: seq<T>, y: T)
    ensures Count(x, s + [y]) == Count(x, s) + if x == y then 1 else 0
  {
  }

  lemma CountRest<T>(x: T, s: seq<T>)
    requires s != []
    ensures Count(x, s[1..]) == Count(x, s) - if x == s[0] then 1 else 0
  {
    assert s == [s[0]] + s[1..];
  }

  /** A step takes the first event, appends the one its move stands for, or appends
      at most the worker's end. */
  predicate QueueMoves(move: Move, queue: seq<Event>, queue': seq<Event>) {
    match move
    case Receive(_) => queue != [] && queue' == queue[1..]
    case Announce => queue' == queue + [StopEvent]
    case WorkerReports => queue' == queue + [InitializedEvent]
    case _ => queue' == queue || queue' == queue + [FinishedEvent(true)] || queue' == queue + [FinishedEvent(false)]
  }

  lemma StepMovesQueue(move: Move, w: World)
    requires Enabled(move, w)
    ensures QueueMoves(move, w.queue, Next(move, w).queue)
  {
  }

  lemma QueueCounts(move: Move, queue: seq<Event>, queue': seq<Event>, e: Event)
    requires QueueMoves(move, queue, queue') && !e.FinishedEvent?
    ensures Count(e, queue') == Count(e, queue)
              + (if (move.Announce? && e.StopEvent?) || (move.WorkerReports? && e.InitializedEvent?) then 1 else 0)
              - (if move.Receive? && queue[0] == e then 1 else 0)
  {
    if move.Receive? {
      CountRest(e, queue);
    } else if queue' != queue {
      CountAppend(e, queue, queue'[|queue|]);
    }
  }

  lemma StepQueues(move: Move, w: World, e: Event)
    requires Enabled(move, w) && !e.FinishedEvent?
    ensures Count(e, Next(move, w).queue) == Count(e, w.queue)
              + (if (move.Announce? && e.StopEvent?) || (move.WorkerReports? && e.InitializedEvent?) then 1 else 0)
              - (if move.Receive? && w.queue[0] == e then 1 else 0)
  {
    StepMovesQueue(move, w);
    QueueCounts(move, w.queue, Next(move, w).queue, e);
  }

  /** What a step publishes. */
  function Publishes(move: Move, w: World): seq<Published> {
    if move.Publish? then [Running] else if StopsNow(move, w) then [StopPending] else []
  }

  lemma StepPublishes(move: Move, w: World)
    requires Enabled(move, w)
    ensures Next(move, w).published == w.published + Publishes(move, w)
  {
  }

  lemma PublishedCounts(p: Published, published: seq<Published>, more: seq<Published>)
    requires |more| <= 1
    ensures Count(p, published + more) == Count(p, published) + if more == [p] then 1 else 0
  {
    if more != [] {
      CountAppend(p, published, more[0]);
      assert more == [more[0]];
    } else {
      assert published + more == published;
    }
  }

  /** The loop hears of the stop for the first time. */
  predicate StopsNow(move: Move, w: World) { move.Receive? && w.queue != [] && w.queue[0].StopEvent? && !w.deadline }

  lemma StepPublishesOnce(move: Move, w: World, p: Published)
    requires Enabled(move, w)
    ensures Count(p, Next(move, w).published) == Count(p, w.published)
              + (if (move.Publish? && p.Running?) || (StopsNow(move, w) && p.StopPending?) then 1 else 0)
  {
    StepPublishes(move, w);
    PublishedCounts(p, w.published, Publishes(move, w));
  }

  lemma StepKeepsInitializedOnce(move: Move, w: World)
    requires InitializedOnce(w) && Enabled(move, w)
    ensures InitializedOnce(Next(move, w))
  {
    StepQueues(move, w, InitializedEvent);
    StepPublishesOnce(move, w, Running);
  }

  lemma StepKeepsStopOnce(move: Move, w: World)
    requires StopOnce(w) && Enabled(move, w)
    ensures StopOnce(Next(move, w))
  {
    StepQueues(move, w, StopEvent);
    StepPublishesOnce(move, w, StopPending);
  }

  lemma StepKeepsOrder(move: Move, w: World)
    requires StopOnce(w) && InOrder(w) && Enabled(move, w)
    ensures InOrder(Next(move, w))
  {
    CountedIsIn(StopEvent, w.queue);
    PublishedInOrder(w.published, if move.Publish? then Running else StopPending, w.deadline);
  }

  lemma CountedIsIn<T>(x: T, s: seq<T>)
    ensures 0 < Count(x, s) <==> x in s
  {
  }

  /** Only `Running` may not come after a `StopPending`. */
  lemma PublishedInOrder(published: seq<Published>, p: Published, deadline: bool)
    requires forall i, j :: 0 <= i < j < |published| ==> !(published[i].StopPending? && published[j].Running?)
    requires deadline <==> StopPending in published
    ensures !(p.Running? && deadline) ==>
              forall i, j :: 0 <= i < j < |published| + 1 ==>
                !((published + [p])[i].StopPending? && (published + [p])[j].Running?)
  {
  }

  lemma StepKeepsInv(move: Move, w: World)
    requires Inv(w) && Enabled(move, w)
    ensures Inv(Next(move, w))
  {
    StepKeepsInitializedOnce(move, w);
    StepKeepsStopOnce(move, w);
    StepKeepsOrder(move, w);
  }

  lemma {:induction false} RunKeepsInv(worlds: seq<World>, moves: seq<Move>, i: nat)
    requires Run(worlds, moves) && i < |worlds|
    ensures Inv(worlds[i])
  {
    if i > 0 {
      RunKeepsInv(worlds, moves, i - 1);
      assert Step(worlds, moves, i - 1);
      StepKeepsInv(moves[i - 1], worlds[i - 1]);
    }
  }

  /** In every run `Running` and `StopPending` are each published at most once,
      never `Running` after `StopPending`, and `StopPending` only after cancellation. */
  lemma StatusIsOrdered(worlds: seq<World>, moves: seq<Move>, n: nat, i: nat, j: nat)
    requires Run(worlds, moves) && n < |worlds| && i < j < |worlds[n].published|
    ensures worlds[n].published[i] == Running && worlds[n].published[j] == StopPending && worlds[n].cancelled
  {
    RunKeepsInv(worlds, moves, n);
    var published := worlds[n].published;
    if published[i] == published[j] {
      TwiceCounts(published, i, j);
      assert false;
    }
  }

  lemma TwiceCounts(s: seq<Published>, i: nat, j: nat)
    requires i < j < |s| && s[i] == s[j]
    ensures 2 <= Count(s[i], s)
  {
    assert s == s[..i] + [s[i]] + s[i + 1..j] + [s[j]] + s[j + 1..];
  }

  // ----- the stop callback behind `Announce` -----

  /** The stop signal as the service host sees it: its flag, and whether callback `i`,
      which announces the stop, has run. */
  ghost function Seen(w: World, signal: S.World, i: nat): World {
    w.(cancelled := signal.cancelled, announced := i in signal.runs)
  }

  /** Whatever the stop signal does next is no step here, a cancellation, or the one
      announcement, which only follows cancellation. */
  lemma SignalStepsAreMoves(worlds: seq<S.World>, moves: seq<S.Move>, n: nat, i: nat, w: World)
    requires S.Run(worlds, moves) && n < |moves|
    ensures
      var before, after := Seen(w, worlds[n], i), Seen(w, worlds[n + 1], i);
      || after == before
      || after == Next(Cancel, before)
      || (Enabled(Announce, before) && after == Next(Announce, before).(queue := w.queue))
    ensures multiset(worlds[n + 1].runs)[i] <= 1
  {
    S.RunsAtMostOnceAfterCancellation(worlds, moves, n + 1, i);
    S.StepCancelsOrRuns(worlds, moves, n);
    if worlds[n + 1].runs != worlds[n].runs {
      var x := worlds[n + 1].runs[|worlds[n].runs|];
      assert worlds[n + 1].runs == worlds[n].runs + [x];
    }
  }

  /** And once a cancel has returned, a stop callback registered by then has announced it. */
  lemma ReturnedCancelIsAnnounced(worlds: seq<S.World>, moves: seq<S.Move>, n: nat, i: nat, w: World)
    requires S.Run(worlds, moves) && n < |worlds|
    requires exists j :: 0 <= j < |worlds[n].cancellers| && worlds[n].cancellers[j].Finished?
    requires i < |worlds[n].registrars| && worlds[n].registrars[i].Registered?
    ensures Seen(w, worlds[n], i).announced && Seen(w, worlds[n], i).cancelled
  {
    S.RunsExactlyOnce(worlds, moves, n, i);
    S.RunsAtMostOnceAfterCancellation(worlds, moves, n, i);
  }
}
