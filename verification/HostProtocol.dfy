/** One VM's host controller as a machine of atomic moves. The daemon may crash
    between any two of them, the device may change between any two of them, and
    a save may fail with or without the new file in place. Everything the daemon
    forgets in a crash is in `Daemon`; `sent`, `admitted`, `baselines` and
    `reports` only record what happened. */
module HostProtocol {
  import opened Arithmetic
  import opened Device
  import opened Requests
  import opened Checkpoint
  import opened Wrappers

  datatype HostConfig = HostConfig(
    vm: string,
    service: string,
    priority: nat,
    tolerance: U64,
    headroom: U64,
    observeOnly: bool,
    minRam: U64,
    maxRam: U64
  )

  datatype Command = Resize | Retarget | Widen

  /** `Armed`: the intent behind the command is saved and the command is next.
      `Declined`: the command was rejected before it ran. */
  datatype Phase = Idle | Armed(command: Command) | Declined(command: Command)

  datatype Daemon = Daemon(control: Control, seen: Option<VirtioMemState>, phase: Phase)

  /** A command answers; an unknown answer leaves open whether it ran. */
  datatype Answer = Done | Rejection | UnknownRan | UnknownLost {
    predicate Ran() { Done? || UnknownRan? }
  }

  /** A save lands; lands and then reports a failed directory flush; or is lost. */
  datatype Landing = Landed | LandedThenFailed | Lost

  datatype Change =
    | Begin(request: Request, now: U64, intent: Intent)
    | Conclude(request: Request, now: U64, result: MemoryResult)
    | Release(now: U64)
    | Resolve(now: U64)
    | Latch(now: U64)
    | Extend(target: U64, floor: U64)
    | Unextend
    | Settle(operation: nat, now: U64)

  datatype Move =
    | Interfere(device: VirtioMemState)
    | Read
    | Crash
    | Restart
    | Persist(change: Change, landing: Landing)
    | Send(command: Command, answer: Answer)
    | ClearByOperator(now: U64, landing: Landing)

  datatype Sent = Sent(command: Command, target: U64, answer: Answer, disk: Control, device: VirtioMemState)

  datatype Report = Report(result: MemoryResult, live: VirtioMemState)

  datatype World = World(
    disk: Control,
    daemon: Option<Daemon>,
    device: VirtioMemState,
    sent: seq<Sent>,
    admitted: seq<Request>,
    baselines: map<Request, U64>,
    reports: seq<Report>
  )

  /** The device command a request stands for: its own direction, from the
      converged allocation, by whole blocks, at most the bytes asked for. */
  predicate Executes(request: Request, live: VirtioMemState, intent: Intent) {
    && live.Valid() && live.Converged()
    && live.ValidTarget(intent.target)
    && intent.priorRequested == live.requested
    && intent.priorCurrent == live.current
    && match request.operation {
      case Add => intent.direction.Grow? && live.current < intent.target <= live.current + request.bytes
      case Remove => intent.direction.Shrink? && intent.target < live.current <= intent.target + request.bytes
    }
  }

  function Latched(control: Control, now: U64): Option<Control> {
    if control.journal.request.Some? && control.journal.result.None? then
      var uncertain := MemoryResult(control.journal.request.value, Uncertain, 0, now, true);
      var recorded := control.journal.Record(uncertain);
      if recorded.None? then None else Some(control.(latched := true, journal := recorded.value))
    else Some(control.(latched := true))
  }

  function Resolved(control: Control, live: VirtioMemState, now: U64): Option<Control>
    requires control.intent.Some? && control.journal.request.Some?
  {
    var intent := control.intent.value;
    var explained := intent.direction.SettleGrow? || intent.direction.SettleShrink?;
    var recorded := control.journal.Record(
      MovementResult(control.journal.request.value, intent.priorCurrent, live, now, explained));
    if recorded.None? then None else Some(Control(control.latched, None, recorded.value))
  }

  /** Resolving drops the intent and journals the movement since its command, explained
      exactly if the command was settled; it fails only if the journal refuses the result. */
  lemma ResolvedExactly(control: Control, live: VirtioMemState, now: U64)
    requires control.Durable() && control.intent.Some?
    ensures Resolved(control, live, now).Some? <==>
            0 < now && (control.journal.result.Some? ==> control.journal.result.value.observed <= now)
    ensures Resolved(control, live, now).Some? ==>
              var resolved, intent := Resolved(control, live, now).value, control.intent.value;
              && resolved.latched == control.latched && resolved.intent.None?
              && resolved.journal.request == control.journal.request && resolved.journal.result.Some?
              && var result := resolved.journal.result.value;
              && result.observed == now && (result.explained <==> intent.direction in {SettleGrow, SettleShrink})
              && Accounts(result, intent.priorCurrent, live.current)
  {
  }

  /** The control state a change saves, if the daemon may make the change. */
  function After(config: HostConfig, daemon: Daemon, change: Change): Option<Control> {
    var control := daemon.control;
    match change
    case Begin(request, now, intent) =>
      if control.latched || daemon.seen.None? || daemon.phase != Idle then None
      else
        var admission := control.journal.Admit(request, config.vm, config.service, now, config.tolerance);
        if !admission.New? || !Executes(request, daemon.seen.value, intent) then None
        else Some(Control(false, Some(intent), admission.journal))
    case Conclude(request, now, result) =>
      if control.latched || daemon.phase != Idle then None
      else
        var admission := control.journal.Admit(request, config.vm, config.service, now, config.tolerance);
        if !admission.New? || !(result.outcome.PoolEmpty? || result.outcome.Rejected?) then None
        else
          var recorded := admission.journal.Record(result);
          if recorded.None? then None else Some(control.(journal := recorded.value))
    case Release(now) =>
      if daemon.phase != Declined(Resize) || control.journal.request.None? then None
      else
        var recorded := control.journal.Record(RejectedResult(control.journal.request.value, now));
        if recorded.None? then None else Some(control.(intent := None, journal := recorded.value))
    case Resolve(now) =>
      if daemon.seen.None? || daemon.phase != Idle || control.journal.request.None? then None
      else if !CommandOwnership(control.intent, daemon.seen.value).OwnedConverged? then None
      else Resolved(control, daemon.seen.value, now)
    case Latch(now) =>
      if control.latched then None else Latched(control, now)
    case Extend(target, floor) =>
      if control.latched || daemon.phase != Idle || !PendingOwned(control, daemon.seen, {Shrink}) then None
      else if !(floor <= target < daemon.seen.value.requested && daemon.seen.value.ValidTarget(target)) then None
      else Some(control.(intent := Some(control.intent.value.(target := target))))
    case Unextend =>
      if daemon.phase != Declined(Retarget) || daemon.seen.None? || control.intent.None? then None
      else if !control.intent.value.direction.Shrink? then None
      else Some(control.(intent := Some(control.intent.value.(target := daemon.seen.value.requested))))
    case Settle(operation, now) =>
      if control.latched || daemon.phase != Idle || !PendingOwned(control, daemon.seen, {Grow, Shrink}) then None
      else
        var live := daemon.seen.value;
        var direction := if control.intent.value.direction.Grow? then SettleGrow else SettleShrink;
        Some(control.(intent := Some(
          Intent(operation, now, direction, live.requested, control.intent.value.priorCurrent, live.current))))
  }

  predicate PendingOwned(control: Control, seen: Option<VirtioMemState>, directions: set<Direction>) {
    && control.intent.Some? && seen.Some?
    && control.intent.value.direction in directions
    && CommandOwnership(control.intent, seen.value).OwnedPending?
  }

  function PhaseAfter(change: Change): Phase {
    match change
    case Begin(_, _, _) => Armed(Resize)
    case Extend(_, _) => Armed(Retarget)
    case Settle(_, _) => Armed(Retarget)
    case _ => Idle
  }

  /** What a landed change adds to the record of the run. */
  function Recorded(w: World, change: Change, saved: Control): World
    requires w.daemon.Some?
  {
    match change
    case Begin(request, _, intent) =>
      w.(disk := saved, admitted := w.admitted + [request], baselines := w.baselines[request := intent.priorCurrent])
    case Conclude(request, _, _) =>
      w.(disk := saved, admitted := w.admitted + [request])
    case Resolve(_) =>
      if saved.journal.result.Some? && w.daemon.value.seen.Some?
      then w.(disk := saved, reports := w.reports + [Report(saved.journal.result.value, w.daemon.value.seen.value)])
      else w.(disk := saved)
    case _ => w.(disk := saved)
  }

  /** The world once the change has landed. */
  function Saved(config: HostConfig, w: World, change: Change): World
    requires w.daemon.Some? && After(config, w.daemon.value, change).Some?
  {
    var saved := After(config, w.daemon.value, change).value;
    Recorded(w, change, saved).(daemon := Some(Daemon(saved, w.daemon.value.seen, PhaseAfter(change))))
  }

  /** The sink's own check just before a command: the device is still as it was
      read, converged for a resize and pending for a retarget. */
  predicate SinkAccepts(command: Command, seen: VirtioMemState, device: VirtioMemState, target: U64) {
    && device == seen
    && device.ValidTarget(target)
    && (command.Retarget? <==> !device.Converged())
  }

  function CommandTarget(daemon: Daemon, device: VirtioMemState, command: Command): U64 {
    if command.Widen? then device.MaximumTarget() else daemon.control.IntentTarget()
  }

  ghost predicate Takes(config: HostConfig, move: Move, w: World, w': World) {
    match move
    case Interfere(device) => w' == w.(device := device)
    case Read =>
      && w.daemon.Some? && w.device.Valid() && w.daemon.value.phase.Idle?
      && w' == w.(daemon := Some(w.daemon.value.(seen := Some(w.device))))
    case Crash => w' == w.(daemon := None)
    case Restart => w.daemon.None? && w' == w.(daemon := Some(Daemon(w.disk, None, Idle)))
    case Persist(change, landing) =>
      && w.daemon.Some?
      && After(config, w.daemon.value, change).Some?
      && match landing {
        case Landed => w' == Saved(config, w, change)
        case LandedThenFailed => w' == Saved(config, w, change).(daemon := None)
        case Lost => w' == w.(daemon := None)
      }
    case Send(command, answer) =>
      && w.daemon.Some?
      && var daemon := w.daemon.value;
      && var target := CommandTarget(daemon, w.device, command);
      && (if command.Widen?
          then daemon.phase.Idle? && !daemon.control.latched
          else daemon.phase == Armed(command))
      && (!answer.Rejection? ==>
            daemon.seen.Some? && SinkAccepts(command, daemon.seen.value, w.device, target))
      && w' == w.(
          daemon := Some(daemon.(phase := if answer.Rejection? && !command.Widen? then Declined(command) else Idle)),
          device := if answer.Ran() && !(command.Widen? && answer.Done?) then w.device.(requested := target)
              else w.device,
          sent := w.sent + [Sent(command, target, answer, w.disk, w.device)])
    case ClearByOperator(now, landing) =>
      && w.daemon.None?
      && ClearLatch(w.disk, w.device, now).Some?
      && var saved := ClearLatch(w.disk, w.device, now).value;
      if landing.Lost? then w' == w
      else w' == w.(
             disk := saved,
             reports := if w.disk.intent.Some? && saved.journal.result.Some?
                        then w.reports + [Report(saved.journal.result.value, w.device)]
                        else w.reports)
  }

  ghost predicate Initial(w: World) {
    && w.disk == FRESH && w.daemon.None?
    && w.sent == [] && w.admitted == [] && w.baselines == map[] && w.reports == []
  }

  ghost predicate Step(config: HostConfig, worlds: seq<World>, moves: seq<Move>, i: int) {
    0 <= i < |moves| && i + 1 < |worlds| && Takes(config, moves[i], worlds[i], worlds[i + 1])
  }

  ghost predicate Run(config: HostConfig, worlds: seq<World>, moves: seq<Move>) {
    && |worlds| == |moves| + 1
    && Initial(worlds[0])
    && forall i {:trigger Step(config, worlds, moves, i)} :: 0 <= i < |moves| ==> Step(config, worlds, moves, i)
  }

  // ----- what every reachable world satisfies -----

  ghost predicate JournalHeadsAdmissions(w: World) {
    && Succession(w.admitted)
    && (w.disk.journal.request.None? <==> w.admitted == [])
    && (w.admitted != [] ==> w.disk.journal.request == Some(w.admitted[|w.admitted| - 1]))
  }

  /** Sent resizes belong to strictly increasing admissions; while one is armed,
      it is for a request no resize was sent for. */
  ghost predicate ResizesFollowAdmissions(w: World) {
    && (forall s <- w.sent :: s.command.Resize? ==>
          && s.disk.journal.request.Some? && w.disk.journal.request.Some?
          && s.disk.journal.request.value.issued <= w.disk.journal.request.value.issued)
    && (w.daemon.Some? && w.daemon.value.phase == Armed(Resize) ==>
          forall s <- w.sent :: s.command.Resize? ==>
            s.disk.journal.request.value.issued < w.disk.journal.request.value.issued)
    && (forall i, j :: 0 <= i < j < |w.sent| && w.sent[i].command.Resize? && w.sent[j].command.Resize? ==>
          w.sent[i].disk.journal.request.value.issued < w.sent[j].disk.journal.request.value.issued)
  }

  ghost predicate WriteAhead(s: Sent) {
    && !s.disk.latched
    && (!s.command.Widen? ==> s.disk.intent.Some? && s.target == s.disk.intent.value.target)
  }

  predicate Measures(baselines: map<Request, U64>, report: Report) {
    var r := report.result;
    && report.live.Converged()
    && r.request in baselines
    && r.actual == Min(r.request.bytes, Moved(r.request.operation, baselines[r.request], report.live.current))
    && r.outcome == (if r.actual == r.request.bytes then Completed else Partial)
  }

  ghost predicate MovementAccounted(w: World) {
    && (w.disk.intent.Some? && w.disk.journal.request.Some? ==>
          && w.disk.journal.request.value in w.baselines
          && w.baselines[w.disk.journal.request.value] == w.disk.intent.value.priorCurrent)
    && (forall r <- w.baselines.Keys :: r in w.admitted)
    && (forall report <- w.reports :: Measures(w.baselines, report))
    && (w.disk.journal.result.Some? && w.disk.journal.result.value.outcome in {Completed, Partial} ==>
          exists report <- w.reports :: report.result == w.disk.journal.result.value)
    && (forall s <- w.sent :: s.command.Resize? && !s.answer.Rejection? ==>
          && s.disk.journal.request.Some?
          && s.disk.journal.request.value in w.baselines
          && w.baselines[s.disk.journal.request.value] == s.device.current)
  }

  ghost predicate DaemonAgrees(w: World) {
    w.daemon.Some? ==>
      && w.daemon.value.control == w.disk
      && (w.daemon.value.phase.Armed? || w.daemon.value.phase.Declined? ==>
            && !w.disk.latched && w.disk.intent.Some? && w.daemon.value.seen.Some?)
      && (w.daemon.value.phase in {Armed(Resize), Declined(Resize)} ==>
            w.disk.intent.value.priorCurrent == w.daemon.value.seen.value.current)
      && (w.daemon.value.phase in {Armed(Retarget), Declined(Retarget)} && w.disk.intent.value.direction.Shrink? ==>
            && w.daemon.value.seen.value.ValidTarget(w.disk.intent.value.target)
            && w.disk.intent.value.target < w.daemon.value.seen.value.requested)
  }

  ghost predicate Inv(w: World) {
    && w.disk.Durable()
    && DaemonAgrees(w)
    && JournalHeadsAdmissions(w)
    && ResizesFollowAdmissions(w)
    && (forall s <- w.sent :: WriteAhead(s))
    && MovementAccounted(w)
  }

  // ----- every move keeps it -----

  /** A request that follows the last admission was never admitted before. */
  lemma {:induction false} FollowerIsFresh(admitted: seq<Request>, r: Request)
    requires Succession(admitted)
    requires admitted != [] ==> Follows(admitted[|admitted| - 1], r)
    ensures r !in admitted
    ensures Succession(admitted + [r])
  {
    forall i | 0 <= i < |admitted|
      ensures admitted[i].issued < r.issued
    {
      if i < |admitted| - 1 {
        IssueTimesIncrease(admitted, i, |admitted| - 1);
      }
    }
  }

  /** A change keeps the durable-state invariant. */
  lemma ChangeIsDurable(config: HostConfig, daemon: Daemon, change: Change)
    requires daemon.control.Durable()
    requires After(config, daemon, change).Some?
    requires daemon.phase.Armed? || daemon.phase.Declined? ==> daemon.control.intent.Some? && !daemon.control.latched
    ensures After(config, daemon, change).value.Durable()
  {
  }

  lemma AdmittingKeepsOrder(config: HostConfig, w: World, change: Change)
    requires w.disk.Durable() && DaemonAgrees(w) && JournalHeadsAdmissions(w) && ResizesFollowAdmissions(w)
    requires w.daemon.Some? && After(config, w.daemon.value, change).Some?
    requires change.Begin? || change.Conclude?
    ensures JournalHeadsAdmissions(Saved(config, w, change))
    ensures ResizesFollowAdmissions(Saved(config, w, change))
    ensures change.request !in w.admitted
  {
    FollowerIsFresh(w.admitted, change.request);
  }

  lemma AdmittingKeepsInv(config: HostConfig, w: World, change: Change)
    requires Inv(w) && w.daemon.Some? && After(config, w.daemon.value, change).Some?
    requires change.Begin? || change.Conclude?
    ensures Inv(Saved(config, w, change))
  {
    ChangeIsDurable(config, w.daemon.value, change);
    AdmittingKeepsOrder(config, w, change);
    assert change.request !in w.baselines;
  }

  lemma ResolvingKeepsInv(config: HostConfig, w: World, now: U64)
    requires Inv(w) && w.daemon.Some? && After(config, w.daemon.value, Resolve(now)).Some?
    ensures Inv(Saved(config, w, Resolve(now)))
  {
    ChangeIsDurable(config, w.daemon.value, Resolve(now));
    var w' := Saved(config, w, Resolve(now));
    var report := w'.reports[|w.reports|];
    assert report.result == w'.disk.journal.result.value && Measures(w.baselines, report);
  }

  /** The other changes rewrite the intent or the latch of the admitted request. */
  lemma AmendingKeepsInv(config: HostConfig, w: World, change: Change)
    requires Inv(w) && w.daemon.Some? && After(config, w.daemon.value, change).Some?
    requires !change.Begin? && !change.Conclude? && !change.Resolve?
    ensures Inv(Saved(config, w, change))
  {
    ChangeIsDurable(config, w.daemon.value, change);
    AmendingAgrees(config, w, change);
    AmendingAccounts(config, w, change);
    var w' := Saved(config, w, change);
    assert w' == w.(disk := w'.disk, daemon := w'.daemon) && w'.disk.journal.request == w.disk.journal.request;
  }

  lemma AmendingAgrees(config: HostConfig, w: World, change: Change)
    requires Inv(w) && w.daemon.Some? && After(config, w.daemon.value, change).Some?
    requires !change.Begin? && !change.Conclude? && !change.Resolve?
    ensures DaemonAgrees(Saved(config, w, change))
  {
  }

  lemma AmendingAccounts(config: HostConfig, w: World, change: Change)
    requires Inv(w) && w.daemon.Some? && After(config, w.daemon.value, change).Some?
    requires !change.Begin? && !change.Conclude? && !change.Resolve?
    ensures MovementAccounted(Saved(config, w, change))
  {
  }

  lemma LandingKeepsInv(config: HostConfig, w: World, change: Change)
    requires Inv(w) && w.daemon.Some? && After(config, w.daemon.value, change).Some?
    ensures Inv(Saved(config, w, change))
  {
    match change
    case Begin(_, _, _) => AdmittingKeepsInv(config, w, change);
    case Conclude(_, _, _) => AdmittingKeepsInv(config, w, change);
    case Resolve(now) => ResolvingKeepsInv(config, w, now);
    case _ => AmendingKeepsInv(config, w, change);
  }

  lemma SendKeepsInv(config: HostConfig, w: World, command: Command, answer: Answer, w': World)
    requires Inv(w) && Takes(config, Send(command, answer), w, w')
    ensures Inv(w')
  {
    SendKeepsOrder(config, w, command, answer, w');
    SendKeepsAccounts(config, w, command, answer, w');
  }

  lemma SendKeepsOrder(config: HostConfig, w: World, command: Command, answer: Answer, w': World)
    requires Inv(w) && Takes(config, Send(command, answer), w, w')
    ensures JournalHeadsAdmissions(w') && ResizesFollowAdmissions(w') && forall s <- w'.sent :: WriteAhead(s)
  {
  }

  lemma SendKeepsAccounts(config: HostConfig, w: World, command: Command, answer: Answer, w': World)
    requires Inv(w) && Takes(config, Send(command, answer), w, w')
    ensures DaemonAgrees(w') && MovementAccounted(w')
  {
  }

  lemma ClearKeepsInv(config: HostConfig, w: World, now: U64, landing: Landing, w': World)
    requires Inv(w) && Takes(config, ClearByOperator(now, landing), w, w')
    ensures Inv(w')
  {
    ClearLatchRecovers(w.disk, w.device, now);
  }

  lemma PersistKeepsInv(config: HostConfig, w: World, change: Change, landing: Landing, w': World)
    requires Inv(w) && Takes(config, Persist(change, landing), w, w')
    ensures Inv(w')
  {
    if landing.Lost? {
      ForgettingKeepsInv(w);
    } else {
      LandingKeepsInv(config, w, change);
      ForgettingKeepsInv(Saved(config, w, change));
    }
  }

  /** A crash leaves only the disk and the device. */
  lemma ForgettingKeepsInv(w: World)
    requires Inv(w)
    ensures Inv(w.(daemon := None))
  {
  }

  lemma MoveKeepsInv(config: HostConfig, move: Move, w: World, w': World)
    requires Inv(w) && Takes(config, move, w, w')
    ensures Inv(w')
  {
    match move
    case Crash => ForgettingKeepsInv(w);
    case Persist(change, landing) => PersistKeepsInv(config, w, change, landing, w');
    case Send(command, answer) => SendKeepsInv(config, w, command, answer, w');
    case ClearByOperator(now, landing) => ClearKeepsInv(config, w, now, landing, w');
    case _ =>
  }

  lemma {:induction false} RunKeepsInv(config: HostConfig, worlds: seq<World>, moves: seq<Move>, i: nat)
    requires Run(config, worlds, moves) && i < |worlds|
    ensures Inv(worlds[i])
  {
    if i > 0 {
      RunKeepsInv(config, worlds, moves, i - 1);
      assert Step(config, worlds, moves, i - 1);
      MoveKeepsInv(config, moves[i - 1], worlds[i - 1], worlds[i]);
    }
  }

  // ----- main results -----

  /** Every state ever saved, by the daemon or by `clear-latch`, is durable:
      an intent is present exactly while its request is unresolved, an uncertain
      result only under the latch, and a latched request always has a result. */
  lemma EverySavedStateIsDurable(config: HostConfig, worlds: seq<World>, moves: seq<Move>, i: nat)
    requires Run(config, worlds, moves) && i < |worlds|
    ensures worlds[i].disk.Durable()
    ensures worlds[i].daemon.Some? ==> worlds[i].daemon.value.control == worlds[i].disk
  {
    RunKeepsInv(config, worlds, moves, i);
  }

  /** In every run, with retransmissions and crashes anywhere, no two resize
      commands are sent for one request, not even when the first was rejected. */
  lemma EachRequestIsResizedAtMostOnce(config: HostConfig, worlds: seq<World>, moves: seq<Move>, i: nat, j: nat)
    requires Run(config, worlds, moves) && i < j < |moves|
    requires moves[i].Send? && moves[i].command.Resize? && moves[j].Send? && moves[j].command.Resize?
    ensures worlds[i].disk.journal.request.Some? && worlds[j].disk.journal.request.Some?
    ensures worlds[i].disk.journal.request.value.issued < worlds[j].disk.journal.request.value.issued
    ensures worlds[i].disk.journal.request != worlds[j].disk.journal.request
  {
    RunKeepsInv(config, worlds, moves, j + 1);
    SentGrows(config, worlds, moves, i + 1, j);
    assert Step(config, worlds, moves, i);
    assert Step(config, worlds, moves, j);
    var a, b := |worlds[i].sent|, |worlds[j].sent|;
    assert worlds[i + 1].sent[a].disk == worlds[i].disk;
    assert worlds[j].sent[a] == worlds[i + 1].sent[a];
    assert worlds[j + 1].sent[a] == worlds[i + 1].sent[a] && worlds[j + 1].sent[b].disk == worlds[j].disk;
  }

  lemma {:induction false} SentGrows(config: HostConfig, worlds: seq<World>, moves: seq<Move>, i: nat, j: nat)
    requires Run(config, worlds, moves) && i <= j < |worlds|
    ensures worlds[i].sent <= worlds[j].sent
  {
    if i < j {
      SentGrows(config, worlds, moves, i, j - 1);
      assert Step(config, worlds, moves, j - 1);
      assert worlds[j - 1].sent <= worlds[j].sent;
    }
  }

  /** A resize or retarget goes out only unlatched and, whatever its answer, only to
      the target that is already the durable intent's; a widening only unlatched. */
  lemma CommandsAreWrittenAhead(config: HostConfig, worlds: seq<World>, moves: seq<Move>, i: nat)
    requires Run(config, worlds, moves) && i < |moves| && moves[i].Send?
    ensures !worlds[i].disk.latched
    ensures !moves[i].command.Widen? ==>
              && worlds[i].disk.intent.Some? && |worlds[i].sent| < |worlds[i + 1].sent|
              && worlds[i + 1].sent[|worlds[i].sent|..] == [Sent.Sent(
                   moves[i].command, worlds[i].disk.intent.value.target, moves[i].answer, worlds[i].disk,
                   worlds[i].device)]
              && (moves[i].answer.Ran() ==> worlds[i + 1].device.requested == worlds[i].disk.intent.value.target)
    ensures !moves[i].answer.Ran() ==> worlds[i + 1].device == worlds[i].device
  {
    RunKeepsInv(config, worlds, moves, i);
    assert Step(config, worlds, moves, i);
  }

  /** Once latched, and until an operator clears it, nothing is sent: not by this
      daemon and not by any restarted one. */
  lemma {:induction false} LatchStopsActuation(config: HostConfig, worlds: seq<World>, moves: seq<Move>, i: nat, j: nat)
    requires Run(config, worlds, moves) && i <= j < |worlds|
    requires worlds[i].disk.latched
    requires forall k :: i <= k < j ==> !moves[k].ClearByOperator?
    ensures worlds[j].disk.latched
    ensures worlds[j].sent == worlds[i].sent
    ensures forall k :: i <= k < j ==> !moves[k].Send?
  {
    if i < j {
      LatchStopsActuation(config, worlds, moves, i, j - 1);
      RunKeepsInv(config, worlds, moves, j - 1);
      assert Step(config, worlds, moves, j - 1);
      LatchedMoveSendsNothing(config, moves[j - 1], worlds[j - 1], worlds[j]);
    }
  }

  lemma LatchedMoveSendsNothing(config: HostConfig, move: Move, w: World, w': World)
    requires DaemonAgrees(w) && Takes(config, move, w, w') && w.disk.latched && !move.ClearByOperator?
    ensures w'.disk.latched && w'.sent == w.sent && !move.Send?
  {
  }

  /** A terminal result of a request never changes while the journal holds the request. */
  lemma TerminalResultIsFinal(config: HostConfig, worlds: seq<World>, moves: seq<Move>, i: nat, j: nat)
    requires Run(config, worlds, moves) && i <= j < |worlds|
    requires worlds[i].disk.journal.result.Some? && worlds[i].disk.journal.result.value.Terminal()
    requires worlds[i].disk.journal.request == worlds[j].disk.journal.request
    ensures worlds[j].disk.journal == worlds[i].disk.journal
  {
    TerminalOrSuperseded(config, worlds, moves, i, j);
  }

  lemma {:induction false} TerminalOrSuperseded(config: HostConfig, worlds: seq<World>, moves: seq<Move>, i: nat,
                                                j: nat)
    requires Run(config, worlds, moves) && i <= j < |worlds|
    requires worlds[i].disk.journal.result.Some? && worlds[i].disk.journal.result.value.Terminal()
    ensures worlds[i].disk.journal.request.Some? && worlds[j].disk.journal.request.Some?
    ensures
      || worlds[j].disk.journal == worlds[i].disk.journal
      || worlds[i].disk.journal.request.value.issued < worlds[j].disk.journal.request.value.issued
  {
    RunKeepsInv(config, worlds, moves, i);
    if i < j {
      TerminalOrSuperseded(config, worlds, moves, i, j - 1);
      RunKeepsInv(config, worlds, moves, j - 1);
      assert Step(config, worlds, moves, j - 1);
      JournalAdvances(config, moves[j - 1], worlds[j - 1], worlds[j]);
    }
  }

  /** The admitted request is kept, and its terminal result with it, or the
      request is superseded by a later one. */
  predicate Advances(before: Journal, after: Journal) {
    && before.request.Some? && after.request.Some?
    && (|| before.request.value.issued < after.request.value.issued
        || (after.request == before.request && (!before.Unresolved() ==> after == before)))
  }

  lemma ChangeAdvancesJournal(config: HostConfig, daemon: Daemon, change: Change)
    requires daemon.control.Durable() && daemon.control.journal.request.Some?
    requires After(config, daemon, change).Some?
    ensures Advances(daemon.control.journal, After(config, daemon, change).value.journal)
  {
  }

  lemma JournalAdvances(config: HostConfig, move: Move, w: World, w': World)
    requires w.disk.Durable() && DaemonAgrees(w)
    requires Takes(config, move, w, w') && w.disk.journal.request.Some?
    ensures Advances(w.disk.journal, w'.disk.journal)
  {
    match move
    case Persist(change, _) => ChangeAdvancesJournal(config, w.daemon.value, change);
    case _ =>
  }

  /** Every device state a report or the running daemon holds was the device's own. */
  ghost predicate Observed(worlds: seq<World>, i: nat, live: VirtioMemState)
    requires i < |worlds|
  {
    exists k :: 0 <= k <= i && worlds[k].device == live
  }

  lemma {:induction false} ReportsWereObserved(config: HostConfig, worlds: seq<World>, moves: seq<Move>, i: nat)
    requires Run(config, worlds, moves) && i < |worlds|
    ensures worlds[i].daemon.Some? && worlds[i].daemon.value.seen.Some? ==>
              Observed(worlds, i, worlds[i].daemon.value.seen.value)
    ensures forall report <- worlds[i].reports :: Observed(worlds, i, report.live)
  {
    if i > 0 {
      ReportsWereObserved(config, worlds, moves, i - 1);
      assert Step(config, worlds, moves, i - 1);
      assert forall live :: Observed(worlds, i - 1, live) ==> Observed(worlds, i, live);
      assert Observed(worlds, i, worlds[i - 1].device);
    }
  }

  // ----- movement -----

  /** A reported request is admitted and no longer open, and an armed resize moves. */
  ghost predicate ReportsAreClosed(w: World) {
    && (forall report <- w.reports ::
          report.result.request in w.admitted
          && (w.disk.journal.request == Some(report.result.request) ==> !w.disk.journal.Unresolved()))
    && (w.daemon.Some? && w.daemon.value.phase == Armed(Resize) && w.disk.intent.Some? ==>
          w.disk.intent.value.target != w.disk.intent.value.priorCurrent)
  }

  lemma ChangeKeepsReportsClosed(config: HostConfig, w: World, change: Change)
    requires Inv(w) && ReportsAreClosed(w) && w.daemon.Some? && After(config, w.daemon.value, change).Some?
    ensures ReportsAreClosed(Saved(config, w, change))
  {
    if change.Begin? || change.Conclude? {
      AdmittingKeepsReportsClosed(config, w, change);
    }
  }

  lemma AdmittingKeepsReportsClosed(config: HostConfig, w: World, change: Change)
    requires Inv(w) && ReportsAreClosed(w) && w.daemon.Some? && After(config, w.daemon.value, change).Some?
    requires change.Begin? || change.Conclude?
    ensures ReportsAreClosed(Saved(config, w, change))
  {
    AdmittingKeepsOrder(config, w, change);
  }

  lemma MoveKeepsReportsClosed(config: HostConfig, move: Move, w: World, w': World)
    requires Inv(w) && ReportsAreClosed(w) && Takes(config, move, w, w')
    ensures ReportsAreClosed(w')
  {
    match move
    case Persist(change, _) => ChangeKeepsReportsClosed(config, w, change);
    case ClearByOperator(now, _) => ClearLatchRecovers(w.disk, w.device, now);
    case _ =>
  }

  lemma {:induction false} RunKeepsReportsClosed(config: HostConfig, worlds: seq<World>, moves: seq<Move>, i: nat)
    requires Run(config, worlds, moves) && i < |worlds|
    ensures ReportsAreClosed(worlds[i])
  {
    if i > 0 {
      RunKeepsReportsClosed(config, worlds, moves, i - 1);
      RunKeepsInv(config, worlds, moves, i - 1);
      assert Step(config, worlds, moves, i - 1);
      MoveKeepsReportsClosed(config, moves[i - 1], worlds[i - 1], worlds[i]);
    }
  }

  /** Measured against `lives` alone: every report of `r` was taken on one of them,
      and what the daemon saw before them cannot resolve or retarget `r`. */
  ghost predicate MeasuredOn(w: World, r: Request, lives: set<VirtioMemState>) {
    && r in w.admitted && w.device in lives
    && (forall report <- w.reports :: report.result.request == r ==> report.live in lives)
    && (w.disk.journal.request == Some(r) && w.disk.intent.Some? && w.daemon.Some? && w.daemon.value.seen.Some? ==>
          || w.daemon.value.seen.value in lives
          || (w.daemon.value.seen.value.requested != w.disk.intent.value.target
              && w.daemon.value.phase !in {Armed(Retarget), Declined(Retarget)}))
  }

  lemma ChangeKeepsMeasured(config: HostConfig, w: World, change: Change, r: Request, lives: set<VirtioMemState>)
    requires Inv(w) && MeasuredOn(w, r, lives) && w.daemon.Some? && After(config, w.daemon.value, change).Some?
    ensures MeasuredOn(Saved(config, w, change), r, lives)
  {
    if change.Begin? || change.Conclude? {
      AdmittingKeepsOrder(config, w, change);
    }
  }

  lemma MoveKeepsMeasured(config: HostConfig, move: Move, w: World, w': World, r: Request, lives: set<VirtioMemState>)
    requires Inv(w) && MeasuredOn(w, r, lives) && Takes(config, move, w, w')
    ensures MeasuredOn(w', r, lives + {w'.device})
  {
    match move
    case Persist(change, _) => ChangeKeepsMeasured(config, w, change, r, lives);
    case _ =>
  }

  /** The states the device was in after step `i`, up to step `n`. */
  ghost function DevicesSince(worlds: seq<World>, i: nat, n: nat): set<VirtioMemState>
    requires n < |worlds|
  {
    set k | i < k <= n :: worlds[k].device
  }

  lemma {:induction false} MeasuredSince(config: HostConfig, worlds: seq<World>, moves: seq<Move>, i: nat, n: nat,
                                         r: Request)
    requires Run(config, worlds, moves) && i < n < |worlds|
    requires MeasuredOn(worlds[i + 1], r, {worlds[i + 1].device})
    ensures MeasuredOn(worlds[n], r, DevicesSince(worlds, i, n))
  {
    assert worlds[n].device in DevicesSince(worlds, i, n);
    if i + 1 == n {
      assert DevicesSince(worlds, i, n) == {worlds[n].device};
    } else {
      MeasuredSince(config, worlds, moves, i, n - 1, r);
      RunKeepsInv(config, worlds, moves, n - 1);
      assert Step(config, worlds, moves, n - 1);
      MoveKeepsMeasured(config, moves[n - 1], worlds[n - 1], worlds[n], r, DevicesSince(worlds, i, n - 1));
      assert DevicesSince(worlds, i, n - 1) + {worlds[n].device} == DevicesSince(worlds, i, n);
    }
  }

  /** From the resize on, `r` is measured only on what the device is from then on. */
  lemma ResizeStartsMeasure(config: HostConfig, worlds: seq<World>, moves: seq<Move>, i: nat)
    requires Run(config, worlds, moves) && i < |moves|
    requires moves[i].Send? && moves[i].command.Resize? && !moves[i].answer.Rejection?
    ensures worlds[i].disk.journal.request.Some?
    ensures MeasuredOn(worlds[i + 1], worlds[i].disk.journal.request.value, {worlds[i + 1].device})
  {
    RunKeepsInv(config, worlds, moves, i);
    RunKeepsReportsClosed(config, worlds, moves, i);
    assert Step(config, worlds, moves, i);
  }

  lemma BeginStartsMeasure(config: HostConfig, worlds: seq<World>, moves: seq<Move>, i: nat)
    requires Run(config, worlds, moves) && i < |moves|
    requires moves[i].Persist? && moves[i].change.Begin? && !moves[i].landing.Lost?
    ensures MeasuredOn(worlds[i + 1], moves[i].change.request, {worlds[i + 1].device})
  {
    RunKeepsInv(config, worlds, moves, i);
    RunKeepsReportsClosed(config, worlds, moves, i);
    assert Step(config, worlds, moves, i);
    AdmittingKeepsOrder(config, worlds[i], moves[i].change);
  }

  /** Through any chain of extensions, settling, crashes and restarts, whatever is
      reported of a request is exactly the movement, capped at the bytes asked for,
      from the allocation at which its resize was sent to a converged allocation the
      device had after that. */
  lemma MovementIsConserved(config: HostConfig, worlds: seq<World>, moves: seq<Move>, i: nat, j: nat, report: Report)
    returns (k: nat)
    requires Run(config, worlds, moves) && i < j < |worlds| && report in worlds[j].reports
    requires moves[i].Send? && moves[i].command.Resize? && !moves[i].answer.Rejection?
    requires worlds[i].disk.journal.request == Some(report.result.request)
    ensures i < k <= j && worlds[k].device == report.live && worlds[k].device.Converged()
    ensures Accounts(report.result, worlds[i].device.current, worlds[k].device.current)
  {
    RunKeepsInv(config, worlds, moves, j);
    SentGrows(config, worlds, moves, i + 1, j);
    assert Step(config, worlds, moves, i);
    var s := worlds[i + 1].sent[|worlds[i].sent|];
    assert s == worlds[j].sent[|worlds[i].sent|];
    assert s in worlds[j].sent;
    assert Measures(worlds[j].baselines, report);
    ResizeStartsMeasure(config, worlds, moves, i);
    MeasuredSince(config, worlds, moves, i, j, report.result.request);
    assert report.live in DevicesSince(worlds, i, j);
    k :| i < k <= j && worlds[k].device == report.live;
  }

  /** A journalled Completed or Partial result is such a report. */
  lemma JournalledMovementIsReported(config: HostConfig, worlds: seq<World>, moves: seq<Move>, j: nat)
    returns (report: Report)
    requires Run(config, worlds, moves) && j < |worlds| && worlds[j].disk.journal.result.Some?
    requires worlds[j].disk.journal.result.value.outcome in {Completed, Partial}
    ensures report in worlds[j].reports && report.result == worlds[j].disk.journal.result.value
  {
    RunKeepsInv(config, worlds, moves, j);
    report :| report in worlds[j].reports && report.result == worlds[j].disk.journal.result.value;
  }

  /** The step that began `r`, and the baseline it set for good. */
  lemma {:induction false} BaselineBegan(config: HostConfig, worlds: seq<World>, moves: seq<Move>, j: nat, r: Request)
    returns (n: nat)
    requires Run(config, worlds, moves) && j < |worlds| && r in worlds[j].baselines
    ensures n < j && moves[n].Persist? && moves[n].change.Begin? && !moves[n].landing.Lost?
            && moves[n].change.request == r
    ensures worlds[n].daemon.Some? && worlds[n].daemon.value.seen.Some? && worlds[n].daemon.value.seen.value.Converged()
    ensures worlds[j].baselines[r] == worlds[n].daemon.value.seen.value.current
  {
    if j == 0 {
      assert false;
    } else {
      RunKeepsInv(config, worlds, moves, j - 1);
      assert Step(config, worlds, moves, j - 1);
      BaselinesMove(config, moves[j - 1], worlds[j - 1], worlds[j], r);
      if r in worlds[j - 1].baselines {
        n := BaselineBegan(config, worlds, moves, j - 1, r);
      } else {
        n := j - 1;
      }
    }
  }

  lemma BaselinesMove(config: HostConfig, move: Move, w: World, w': World, r: Request)
    requires Inv(w) && Takes(config, move, w, w') && r in w'.baselines
    ensures r in w.baselines ==> w'.baselines[r] == w.baselines[r]
    ensures r !in w.baselines ==>
              && move.Persist? && move.change.Begin? && !move.landing.Lost? && move.change.request == r
              && w.daemon.Some? && w.daemon.value.seen.Some? && w.daemon.value.seen.value.Converged()
              && w'.baselines[r] == w.daemon.value.seen.value.current
  {
    if move.Persist? && move.change.Begin? {
      AdmittingKeepsOrder(config, w, move.change);
    }
  }

  /** Sent or not, every report measures from a converged allocation the device had,
      to another it had later. */
  lemma ReportsMeasureTheDevice(config: HostConfig, worlds: seq<World>, moves: seq<Move>, j: nat, report: Report)
    returns (a: nat, b: nat)
    requires Run(config, worlds, moves) && j < |worlds| && report in worlds[j].reports
    ensures a < b <= j && worlds[a].device.Converged() && worlds[b].device.Converged()
            && worlds[b].device == report.live
    ensures Accounts(report.result, worlds[a].device.current, worlds[b].device.current)
  {
    RunKeepsInv(config, worlds, moves, j);
    assert Measures(worlds[j].baselines, report);
    var r := report.result.request;
    var n := BaselineBegan(config, worlds, moves, j, r);
    ReportsWereObserved(config, worlds, moves, n);
    assert Observed(worlds, n, worlds[n].daemon.value.seen.value);
    a :| 0 <= a <= n && worlds[a].device == worlds[n].daemon.value.seen.value;
    BeginStartsMeasure(config, worlds, moves, n);
    MeasuredSince(config, worlds, moves, n, j, r);
    assert report.live in DevicesSince(worlds, n, j);
    b :| n < b <= j && worlds[b].device == report.live;
  }

  // ----- stalled shrinks -----

  /** Where the shrink stands: the durable target, or the target an extension
      still to be answered started from. */
  ghost function ShrinkLevel(w: World): U64
    requires w.disk.intent.Some?
  {
    if w.daemon.Some? && w.daemon.value.phase in {Armed(Retarget), Declined(Retarget)} && w.daemon.value.seen.Some?
    then w.daemon.value.seen.value.requested
    else w.disk.intent.value.target
  }

  /** One operation's shrink is under way, on blocks of one size, and no
      extension goes below `floor`. */
  ghost predicate Shrinking(w: World, move: Move, operation: nat, block: U64, floor: U64) {
    && w.disk.intent.Some? && w.disk.intent.value.direction.Shrink? && w.disk.intent.value.operation == operation
    && (w.daemon.Some? && w.daemon.value.seen.Some? ==> w.daemon.value.seen.value.block == block)
    && (move.Persist? && move.change.Extend? ==> floor <= move.change.floor)
  }

  ghost function Extensions(moves: seq<Move>, i: nat, j: nat): nat
    requires i <= j <= |moves|
  {
    if i == j then 0
    else Extensions(moves, i, j - 1)
         + (if moves[j - 1].Send? && moves[j - 1].command.Retarget? && !moves[j - 1].answer.Rejection? then 1 else 0)
  }

  /** The extensions of one operation's shrink fall by whole blocks, so the blocks
      between where it stands and the floor bound how many are ever sent. */
  lemma {:induction false} ExtensionsAreBounded(
    config: HostConfig, worlds: seq<World>, moves: seq<Move>, i: nat, j: nat,
    operation: nat, block: U64, floor: U64)
    requires Run(config, worlds, moves) && i <= j < |worlds|
    requires forall k :: i <= k < j ==> Shrinking(worlds[k], moves[k], operation, block, floor)
    requires forall k :: i <= k <= j ==>
               worlds[k].disk.intent.Some? && worlds[k].disk.intent.value.direction.Shrink?
               && worlds[k].disk.intent.value.operation == operation
    requires floor <= worlds[i].disk.intent.value.target
    ensures floor <= worlds[j].disk.intent.value.target
    ensures Extensions(moves, i, j) * block + ShrinkLevel(worlds[j]) <= ShrinkLevel(worlds[i])
    ensures floor <= ShrinkLevel(worlds[j])
  {
    if i == j {
      ShrinkStands(config, worlds, moves, i);
    } else {
      ExtensionsAreBounded(config, worlds, moves, i, j - 1, operation, block, floor);
      assert Shrinking(worlds[j - 1], moves[j - 1], operation, block, floor);
      ShrinkStepAt(config, worlds, moves, j - 1, operation, block, floor);
      var before, after := Extensions(moves, i, j - 1), Extensions(moves, i, j);
      assert after == before || (after == before + 1 && after * block == before * block + block);
    }
  }

  lemma ShrinkStands(config: HostConfig, worlds: seq<World>, moves: seq<Move>, i: nat)
    requires Run(config, worlds, moves) && i < |worlds|
    requires worlds[i].disk.intent.Some? && worlds[i].disk.intent.value.direction.Shrink?
    ensures worlds[i].disk.intent.value.target <= ShrinkLevel(worlds[i])
  {
    RunKeepsInv(config, worlds, moves, i);
  }

  lemma ShrinkStepAt(
    config: HostConfig, worlds: seq<World>, moves: seq<Move>, i: nat, operation: nat, block: U64, floor: U64)
    requires Run(config, worlds, moves) && i < |moves|
    requires Shrinking(worlds[i], moves[i], operation, block, floor)
    requires worlds[i + 1].disk.intent.Some? && worlds[i + 1].disk.intent.value.direction.Shrink?
    requires worlds[i + 1].disk.intent.value.operation == operation
    requires floor <= worlds[i].disk.intent.value.target && floor <= ShrinkLevel(worlds[i])
    ensures floor <= worlds[i + 1].disk.intent.value.target && floor <= ShrinkLevel(worlds[i + 1])
    ensures ShrinkLevel(worlds[i + 1]) <= ShrinkLevel(worlds[i])
    ensures moves[i].Send? && moves[i].command.Retarget? && !moves[i].answer.Rejection? ==>
              ShrinkLevel(worlds[i + 1]) + block <= ShrinkLevel(worlds[i])
  {
    RunKeepsInv(config, worlds, moves, i);
    assert Step(config, worlds, moves, i);
    ShrinkStep(config, moves[i], worlds[i], worlds[i + 1], operation, block, floor);
  }

  /** What saving a change does to a shrink's target. */
  lemma ShrinkChange(config: HostConfig, daemon: Daemon, change: Change)
    requires daemon.control.intent.Some? && After(config, daemon, change).Some?
    requires daemon.control.Durable()
    ensures
      var saved := After(config, daemon, change).value.intent;
      match change {
        case Extend(target, _) => saved == Some(daemon.control.intent.value.(target := target))
        case Unextend => saved == Some(daemon.control.intent.value.(target := daemon.seen.value.requested))
        case Latch(_) => saved == daemon.control.intent
        case Settle(_, _) => saved.Some? && !saved.value.direction.Shrink?
        case _ => saved.None?
      }
  {
  }

  lemma ShrinkStep(config: HostConfig, move: Move, w: World, w': World, operation: nat, block: U64, floor: U64)
    requires w.disk.Durable() && DaemonAgrees(w) && Takes(config, move, w, w')
    requires Shrinking(w, move, operation, block, floor)
    requires w'.disk.intent.Some? && w'.disk.intent.value.direction.Shrink?
            && w'.disk.intent.value.operation == operation
    requires floor <= w.disk.intent.value.target && floor <= ShrinkLevel(w)
    ensures floor <= w'.disk.intent.value.target && floor <= ShrinkLevel(w')
    ensures ShrinkLevel(w') <= ShrinkLevel(w)
    ensures move.Send? && move.command.Retarget? && !move.answer.Rejection? ==>
              ShrinkLevel(w') + block <= ShrinkLevel(w)
  {
    match move
    case Send(command, _) =>
      if command.Retarget? {
        MultiplesApart(w.disk.intent.value.target, w.daemon.value.seen.value.requested, block);
      }
    case Persist(change, _) =>
      ShrinkChange(config, w.daemon.value, change);
    case _ =>
  }
}
