/** The guest service and the host controller together. The guest keeps its
    request in a durable file and republishes it in one mailbox; the host hears
    the mailbox, runs its own protocol, and posts results in the other. Either
    side may die between any two moves, a file replacement may fail with or
    without the new contents in place, and a stopping guest may abandon a
    replacement and still report success. */
module Handshake {
  import opened Arithmetic
  import opened Checkpoint
  import opened Requests
  import opened GuestRequests
  import Host = HostProtocol
  import opened Wrappers

  /** `Persist`: the new state must reach the file first. `Writing`: the stop
      signal was checked and the publication is being replaced. */
  datatype Todo =
    | Ready
    | Persist(request: Option<Request>)
    | Publish(request: Option<Request>)
    | Writing(request: Option<Request>)

  datatype Process = Process(session: string, sequence: U64, state: GuestState, cancelled: bool, todo: Todo)

  /** `issued`, `published`, `last` and `read` record the run: the requests that
      ever reached the file, those ever published, the latest of these, and the
      results the guest consumed. */
  datatype World = World(
    file: GuestState,
    guest: Option<Process>,
    used: set<string>,
    publication: Option<Request>,
    heard: Option<Request>,
    posted: seq<HostStatus>,
    host: Host.World,
    issued: seq<Request>,
    published: set<Request>,
    last: Option<Request>,
    read: seq<MemoryResult>
  )

  datatype Move =
    | Start(session: string)
    | Die
    | Cancel
    | Poll(now: U64, status: Option<HostStatus>, state: GuestState, sequence: U64, decision: Decision)
    | PersistEnds(landed: bool, ok: bool)
    | PublishStarts
    | PublishEnds(landed: bool, ok: bool)
    | Hear
    | Post(post: HostStatus)
    | HostMoves(move: Host.Move)

  /** The request a host move admits, if it admits one. */
  function Admits(move: Host.Move): Option<Request> {
    if move.Persist? && move.change.Begin? then Some(move.change.request)
    else if move.Persist? && move.change.Conclude? then Some(move.change.request)
    else None
  }

  /** A replacement reports success if it landed, or if the service is stopping. */
  predicate Reported(process: Process, landed: bool, ok: bool) { ok ==> landed || process.cancelled }

  /** The host posts its journalled result, or a refusal of what it heard. */
  predicate Posts(w: World, result: MemoryResult) {
    || w.host.disk.journal.result == Some(result)
    || (w.heard.Some? && result == RejectedResult(w.heard.value, result.observed))
  }

  ghost predicate GuestTakes(config: Host.HostConfig, move: Move, w: World, w': World)
    requires w.guest.Some?
  {
    var p := w.guest.value;
    match move
    case Cancel => w' == w.(guest := Some(p.(cancelled := true)))
    case Poll(now, status, state, sequence, decision) =>
      && p.todo.Ready? && !p.cancelled
      && (status.Some? ==> status.value in w.posted)
      && Polls(p.state, p.sequence, config.vm, config.service, p.session, now, status, state, sequence, decision)
      && w' == w.(
          guest := Some(p.(state := state, sequence := sequence,
                           todo := if decision.persist then Persist(decision.request) else Publish(decision.request))),
          read := if decision.resolved.Some? then w.read + [decision.resolved.value] else w.read)
    case PersistEnds(landed, ok) =>
      && p.todo.Persist? && Reported(p, landed, ok)
      && w' == w.(
          guest := if ok then Some(p.(todo := Publish(p.todo.request))) else None,
          file := if landed then p.state else w.file,
          issued := if landed && p.todo.request.Some? then w.issued + [p.todo.request.value] else w.issued)
    case PublishStarts =>
      && p.todo.Publish?
      && w' == w.(guest := Some(p.(todo := if p.cancelled then Ready else Writing(p.todo.request))))
    case PublishEnds(landed, ok) =>
      && p.todo.Writing? && Reported(p, landed, ok)
      && var r := p.todo.request;
      && w' == w.(
          guest := if ok then Some(p.(todo := Ready)) else None,
          publication := if landed then r else w.publication,
          last := if landed && r.Some? then r else w.last,
          published := if landed && r.Some? then w.published + {r.value} else w.published)
    case _ => false
  }

  ghost predicate Takes(config: Host.HostConfig, move: Move, w: World, w': World) {
    match move
    case Start(session) =>
      && w.guest.None? && session !in w.used && ValidIdentity(session)
      && w.file.Restorable(config.vm, config.service)
      && w' == w.(guest := Some(Process(session, 0, w.file, false, Ready)), used := w.used + {session})
    case Die => w' == w.(guest := None)
    case Hear => w' == w.(heard := w.publication)
    case Post(status) =>
      && status.ValidFor(config.vm, config.service)
      && (status.result.Some? ==> Posts(w, status.result.value))
      && w' == w.(posted := w.posted + [status])
    case HostMoves(m) =>
      && Host.Takes(config, m, w.host, w'.host)
      && (Admits(m).Some? ==> w.heard == Admits(m))
      && w' == w.(host := w'.host)
    case _ => w.guest.Some? && GuestTakes(config, move, w, w')
  }

  ghost predicate Initial(w: World) {
    && w.file == NOTHING_ISSUED && w.guest.None? && w.used == {}
    && w.publication.None? && w.heard.None? && w.posted == [] && Host.Initial(w.host)
    && w.issued == [] && w.published == {} && w.last.None? && w.read == []
  }

  ghost predicate Step(config: Host.HostConfig, worlds: seq<World>, moves: seq<Move>, i: int) {
    0 <= i < |moves| && i + 1 < |worlds| && Takes(config, moves[i], worlds[i], worlds[i + 1])
  }

  ghost predicate Run(config: Host.HostConfig, worlds: seq<World>, moves: seq<Move>) {
    && |worlds| == |moves| + 1
    && Initial(worlds[0])
    && forall i {:trigger Step(config, worlds, moves, i)} :: 0 <= i < |moves| ==> Step(config, worlds, moves, i)
  }

  // ----- what every reachable world satisfies -----

  /** Of any two issued requests the earlier precedes the later, in time and
      within its session. */
  ghost predicate Ordered(issued: seq<Request>) {
    forall i, j :: 0 <= i < j < |issued| ==> Follows(issued[i], issued[j])
  }

  /** The guest has read a terminal result of exactly this request. */
  ghost predicate Answered(read: seq<MemoryResult>, r: Request) {
    exists k :: 0 <= k < |read| && read[k].request == r && read[k].Terminal()
  }

  predicate Proper(config: Host.HostConfig, r: Request) {
    r.Valid() && r.BelongsTo(config.vm, config.service)
  }

  /** The file holds the latest issued request until it is answered. */
  ghost predicate FileHolds(config: Host.HostConfig, w: World) {
    && w.file.Restorable(config.vm, config.service)
    && Ordered(w.issued)
    && (forall i {:trigger Proper(config, w.issued[i])} :: 0 <= i < |w.issued| ==> Proper(config, w.issued[i]))
    && (forall i :: 0 <= i < |w.issued| ==>
        w.issued[i].issued <= w.file.lastIssued && w.issued[i].identity.session in w.used)
    && (w.file.pending.Some? ==> w.issued != [] && w.file.pending.value == w.issued[|w.issued| - 1])
    && (forall i :: 0 <= i < |w.issued| && (i < |w.issued| - 1 || w.file.pending.None?) ==>
        Answered(w.read, w.issued[i]))
  }

  /** Everything the process has issued is numbered below `sequence`. */
  ghost predicate Numbered(issued: seq<Request>, session: string, sequence: int) {
    forall i :: 0 <= i < |issued| && issued[i].identity.session == session ==> issued[i].identity.sequence < sequence
  }

  /** `r` may follow everything issued so far. */
  ghost predicate Fresh(config: Host.HostConfig, w: World, p: Process, r: Request) {
    && Proper(config, r)
    && w.file.lastIssued < r.issued
    && r.identity.session == p.session && r.identity.sequence < p.sequence
    && Numbered(w.issued, p.session, r.identity.sequence)
  }

  /** The process is in step with the file, one change ahead of it, or stopping. */
  ghost predicate InStep(config: Host.HostConfig, w: World, p: Process) {
    && p.session in w.used && Numbered(w.issued, p.session, p.sequence)
    && match p.todo
       case Ready => p.cancelled || p.state == w.file
       case Persist(r) =>
         if r.None? then
           w.file.pending.Some? && p.state == w.file.(pending := None) && Answered(w.read, w.file.pending.value)
         else
           w.file.pending.None? && p.state == GuestState(r, r.value.issued) && Fresh(config, w, p, r.value)
       case Publish(r) => p.cancelled || (p.state == w.file && r == w.file.pending)
       case Writing(r) => p.state == w.file && r == w.file.pending
  }

  /** What was published was issued, up to the latest publication; what the host
      heard and admitted was published. */
  ghost predicate MailboxFollows(w: World) {
    && (w.last.Some? ==> w.last.value in w.published)
    && (w.published != {} ==> w.last.Some?)
    && (forall r <- w.published :: r in w.issued && r.issued <= w.last.value.issued)
    && (w.publication.Some? ==> w.publication == w.last)
    && (w.publication.None? && w.last.Some? ==> Answered(w.read, w.last.value))
  }

  ghost predicate HostFollows(w: World) {
    && (w.heard.Some? ==> w.heard.value in w.published)
    && var admitted := w.host.disk.journal.request;
       admitted.Some? ==>
         && admitted.value in w.published
         && (w.heard.Some? ==> admitted.value.issued <= w.heard.value.issued)
  }

  /** A result that claims movement is in the host's own reports. */
  ghost predicate Backed(host: Host.World, result: MemoryResult) {
    result.outcome.Completed? || result.outcome.Partial? ==>
      exists k :: 0 <= k < |host.reports| && host.reports[k].result == result
  }

  ghost predicate ResultsAreBacked(w: World) {
    && (w.host.disk.journal.result.Some? ==> Backed(w.host, w.host.disk.journal.result.value))
    && (forall s <- w.posted :: s.result.Some? ==> Backed(w.host, s.result.value))
    && (forall k :: 0 <= k < |w.read| ==> Backed(w.host, w.read[k]) && WasPosted(w, w.read[k]))
  }

  ghost predicate WasPosted(w: World, result: MemoryResult) {
    exists s :: s in w.posted && s.result == Some(result)
  }

  ghost predicate Inv(config: Host.HostConfig, w: World) {
    Host.Inv(w.host) && Exchange(config, w)
  }

  ghost predicate Exchange(config: Host.HostConfig, w: World) {
    && FileHolds(config, w)
    && (w.guest.Some? ==> InStep(config, w, w.guest.value))
    && MailboxFollows(w)
    && HostFollows(w)
    && ResultsAreBacked(w)
  }

  // ----- every move keeps it -----

  lemma AnsweredStays(read: seq<MemoryResult>, result: MemoryResult, r: Request)
    requires Answered(read, r)
    ensures Answered(read + [result], r)
  {
    var k :| 0 <= k < |read| && read[k].request == r && read[k].Terminal();
    assert (read + [result])[k] == read[k];
  }

  /** Reading one more posted result disturbs nothing. */
  lemma ReadingKeeps(config: Host.HostConfig, w: World, w': World, result: MemoryResult)
    requires FileHolds(config, w) && MailboxFollows(w) && ResultsAreBacked(w) && WasPosted(w, result)
    requires w' == w.(guest := w'.guest, read := w.read + [result])
    ensures FileHolds(config, w') && MailboxFollows(w') && ResultsAreBacked(w')
    ensures result.Terminal() ==> Answered(w'.read, result.request)
  {
    forall r | Answered(w.read, r)
      ensures Answered(w'.read, r)
    {
      AnsweredStays(w.read, result, r);
    }
    forall k | 0 <= k < |w'.read|
      ensures WasPosted(w', w'.read[k]) && Backed(w'.host, w'.read[k])
    {
      assert k < |w.read| ==> WasPosted(w, w.read[k]);
    }
    assert w'.read[|w.read|] == result;
  }

  lemma PollKeepsExchange(config: Host.HostConfig, move: Move, w: World, w': World)
    requires Exchange(config, w) && move.Poll? && Takes(config, move, w, w')
    ensures Exchange(config, w')
  {
    if move.decision.resolved.Some? {
      ReadingKeeps(config, w, w', move.decision.resolved.value);
    } else {
      ReadStaysPosted(w, w');
    }
    assert FileHolds(config, w') && MailboxFollows(w');
    assert InStep(config, w', w'.guest.value);
  }

  lemma IssuingKeepsFile(config: Host.HostConfig, w: World, w': World, p: Process, r: Request)
    requires FileHolds(config, w) && w.file.pending.None? && p.session in w.used && Fresh(config, w, p, r)
    requires w'.file == GuestState(Some(r), r.issued) && w'.issued == w.issued + [r]
    requires w'.used == w.used && w'.read == w.read
    ensures FileHolds(config, w') && Numbered(w'.issued, p.session, p.sequence)
  {
    assert forall i :: 0 <= i < |w.issued| ==> w'.issued[i] == w.issued[i];
  }

  lemma PersistKeepsExchange(config: Host.HostConfig, move: Move, w: World, w': World)
    requires Exchange(config, w) && move.PersistEnds? && Takes(config, move, w, w')
    ensures Exchange(config, w')
  {
    var p := w.guest.value;
    if move.landed && p.todo.request.Some? {
      IssuingKeepsFile(config, w, w', p, p.todo.request.value);
    }
    assert FileHolds(config, w');
    assert MailboxFollows(w');
    ReadStaysPosted(w, w');
  }

  lemma ReadStaysPosted(w: World, w': World)
    requires ResultsAreBacked(w) && w'.host == w.host && w'.posted == w.posted && w'.read == w.read
    ensures ResultsAreBacked(w')
  {
    forall k | 0 <= k < |w'.read|
      ensures WasPosted(w', w'.read[k])
    {
      assert WasPosted(w, w.read[k]);
    }
  }

  lemma PublishKeepsExchange(config: Host.HostConfig, move: Move, w: World, w': World)
    requires Exchange(config, w) && move.PublishEnds? && Takes(config, move, w, w')
    ensures Exchange(config, w')
  {
    assert FileHolds(config, w') && MailboxFollows(w');
    assert w'.guest.Some? ==> InStep(config, w', w'.guest.value);
  }

  lemma PostKeepsExchange(config: Host.HostConfig, move: Move, w: World, w': World)
    requires Exchange(config, w) && move.Post? && Takes(config, move, w, w')
    ensures Exchange(config, w')
  {
    PostKeepsBacking(w, w', move.post);
    assert FileHolds(config, w') && MailboxFollows(w') && HostFollows(w');
    assert w'.guest.Some? ==> InStep(config, w', w'.guest.value);
  }

  lemma PostKeepsBacking(w: World, w': World, post: HostStatus)
    requires ResultsAreBacked(w) && w' == w.(posted := w.posted + [post])
    requires post.result.Some? ==> Posts(w, post.result.value)
    ensures ResultsAreBacked(w')
  {
    forall k | 0 <= k < |w'.read|
      ensures WasPosted(w', w'.read[k])
    {
      assert WasPosted(w, w.read[k]);
      var s :| s in w.posted && s.result == Some(w.read[k]);
      assert s in w'.posted;
    }
  }

  lemma JournalSource(config: Host.HostConfig, move: Host.Move, host: Host.World, host': Host.World)
    requires Host.DaemonAgrees(host) && Host.Takes(config, move, host, host')
    ensures || host'.disk.journal.request == host.disk.journal.request
            || (Admits(move).Some? && host'.disk.journal.request == Admits(move))
  {
    match move
    case Persist(change, _) => ChangeSource(config, host.daemon.value, change);
    case _ =>
  }

  lemma ChangeSource(config: Host.HostConfig, daemon: Host.Daemon, change: Host.Change)
    requires Host.After(config, daemon, change).Some?
    ensures
      var request := Host.After(config, daemon, change).value.journal.request;
      request == if change.Begin? || change.Conclude? then Some(change.request) else daemon.control.journal.request
  {
  }

  lemma ReportsGrow(config: Host.HostConfig, move: Host.Move, host: Host.World, host': Host.World)
    requires Host.Takes(config, move, host, host')
    ensures host.reports <= host'.reports
  {
  }

  lemma BackingStays(host: Host.World, host': Host.World, result: MemoryResult)
    requires host.reports <= host'.reports && Backed(host, result)
    ensures Backed(host', result)
  {
    if result.outcome.Completed? || result.outcome.Partial? {
      var k :| 0 <= k < |host.reports| && host.reports[k].result == result;
      assert host'.reports[k].result == result;
    }
  }

  lemma HostKeepsResults(w: World, w': World)
    requires w.host.reports <= w'.host.reports && w' == w.(host := w'.host)
    requires ResultsAreBacked(w) && Host.MovementAccounted(w'.host)
    ensures ResultsAreBacked(w')
  {
    var journal := w'.host.disk.journal;
    if journal.result.Some? && journal.result.value.outcome in {Completed, Partial} {
      var report :| report in w'.host.reports && report.result == journal.result.value;
      var k :| 0 <= k < |w'.host.reports| && w'.host.reports[k] == report;
    }
    forall result | Backed(w.host, result)
      ensures Backed(w'.host, result)
    {
      BackingStays(w.host, w'.host, result);
    }
    forall k | 0 <= k < |w'.read|
      ensures WasPosted(w', w'.read[k])
    {
      assert WasPosted(w, w.read[k]);
    }
  }

  lemma HostKeepsExchange(config: Host.HostConfig, w: World, w': World)
    requires Exchange(config, w) && w' == w.(host := w'.host) && ResultsAreBacked(w')
    requires || w'.host.disk.journal.request == w.host.disk.journal.request
             || (w.heard.Some? && w'.host.disk.journal.request == w.heard)
    ensures Exchange(config, w')
  {
    assert FileHolds(config, w') && MailboxFollows(w') && HostFollows(w');
    assert w'.guest.Some? ==> InStep(config, w', w'.guest.value);
  }

  lemma HostKeepsInv(config: Host.HostConfig, move: Move, w: World, w': World)
    requires Inv(config, w) && move.HostMoves? && Takes(config, move, w, w')
    ensures Inv(config, w')
  {
    Host.MoveKeepsInv(config, move.move, w.host, w'.host);
    JournalSource(config, move.move, w.host, w'.host);
    ReportsGrow(config, move.move, w.host, w'.host);
    HostKeepsResults(w, w');
    HostKeepsExchange(config, w, w');
  }

  lemma StartKeepsExchange(config: Host.HostConfig, move: Move, w: World, w': World)
    requires Exchange(config, w) && move.Start? && Takes(config, move, w, w')
    ensures Exchange(config, w')
  {
    ReadStaysPosted(w, w');
    assert FileHolds(config, w');
    assert InStep(config, w', w'.guest.value);
  }

  lemma QuietKeepsExchange(config: Host.HostConfig, move: Move, w: World, w': World)
    requires Exchange(config, w) && Takes(config, move, w, w')
    requires move.Die? || move.Cancel? || move.PublishStarts? || move.Hear?
    ensures Exchange(config, w')
  {
    ReadStaysPosted(w, w');
    assert FileHolds(config, w');
    assert MailboxFollows(w') && HostFollows(w');
    assert w'.guest.Some? ==> InStep(config, w', w'.guest.value);
  }

  lemma MoveKeepsInv(config: Host.HostConfig, move: Move, w: World, w': World)
    requires Inv(config, w) && Takes(config, move, w, w')
    ensures Inv(config, w')
  {
    match move
    case Start(_) => StartKeepsExchange(config, move, w, w');
    case Poll(_, _, _, _, _) => PollKeepsExchange(config, move, w, w');
    case PersistEnds(_, _) => PersistKeepsExchange(config, move, w, w');
    case PublishEnds(_, _) => PublishKeepsExchange(config, move, w, w');
    case Post(_) => PostKeepsExchange(config, move, w, w');
    case HostMoves(_) => HostKeepsInv(config, move, w, w');
    case _ => QuietKeepsExchange(config, move, w, w');
  }

  lemma {:induction false} RunKeepsInv(config: Host.HostConfig, worlds: seq<World>, moves: seq<Move>, i: nat)
    requires Run(config, worlds, moves) && i < |worlds|
    ensures Inv(config, worlds[i])
  {
    if i > 0 {
      RunKeepsInv(config, worlds, moves, i - 1);
      assert Step(config, worlds, moves, i - 1);
      MoveKeepsInv(config, moves[i - 1], worlds[i - 1], worlds[i]);
    }
  }

  // ----- main results -----

  /** A request is durable before it is published: whenever a publication lands,
      its request is the one the guest's file holds. */
  lemma PublishedIsDurable(config: Host.HostConfig, worlds: seq<World>, moves: seq<Move>, i: nat)
    requires Run(config, worlds, moves) && i < |moves| && moves[i].PublishEnds? && moves[i].landed
    ensures worlds[i + 1].publication == worlds[i].file.pending
  {
    RunKeepsInv(config, worlds, moves, i);
    assert Step(config, worlds, moves, i);
  }

  /** Once published, a request stays published, unchanged, until the guest has
      read a terminal result of exactly that request, which the host had posted. */
  lemma RequestStandsUntilAnswered(config: Host.HostConfig, worlds: seq<World>, moves: seq<Move>, i: nat, r: Request)
    requires Run(config, worlds, moves) && i < |worlds| && r in worlds[i].published
    ensures
      || worlds[i].publication == Some(r)
      || exists k :: 0 <= k < |worlds[i].read| && worlds[i].read[k].request == r && worlds[i].read[k].Terminal()
                     && WasPosted(worlds[i], worlds[i].read[k])
  {
    RunKeepsInv(config, worlds, moves, i);
    var w := worlds[i];
    if w.publication != Some(r) {
      var n :| 0 <= n < |w.issued| && w.issued[n] == r;
      if n == |w.issued| - 1 {
        LatestIsLast(w, n);
      }
      assert Answered(w.read, r);
      var k :| 0 <= k < |w.read| && w.read[k].request == r && w.read[k].Terminal();
      assert WasPosted(w, w.read[k]);
    }
  }

  lemma LatestIsLast(w: World, n: nat)
    requires Ordered(w.issued) && MailboxFollows(w) && n == |w.issued| - 1 && w.issued[n] in w.published
    ensures w.last == Some(w.issued[n])
  {
    var m :| 0 <= m < |w.issued| && w.issued[m] == w.last.value;
  }

  /** Two requests published one after the other are issued in that order. */
  lemma IssueTimesFollowPublication(
    config: Host.HostConfig, worlds: seq<World>, moves: seq<Move>, i: nat, j: nat, r: Request, q: Request)
    requires Run(config, worlds, moves) && i <= j < |worlds| && r != q
    requires worlds[i].publication == Some(r) && worlds[j].publication == Some(q)
    ensures r.issued < q.issued
    ensures r.identity.session == q.identity.session ==> r.identity.sequence < q.identity.sequence
  {
    RunKeepsInv(config, worlds, moves, i);
    RunKeepsInv(config, worlds, moves, j);
    PublishedStays(config, worlds, moves, i, j);
    SamePlace(worlds[j].issued, r, q);
  }

  lemma SamePlace(issued: seq<Request>, r: Request, q: Request)
    requires Ordered(issued) && r in issued && q in issued && r.issued <= q.issued && r != q
    ensures Follows(r, q)
  {
    var m :| 0 <= m < |issued| && issued[m] == r;
    var n :| 0 <= n < |issued| && issued[n] == q;
  }

  lemma {:induction false} PublishedStays(config: Host.HostConfig, worlds: seq<World>, moves: seq<Move>, i: nat, j: nat)
    requires Run(config, worlds, moves) && i <= j < |worlds|
    ensures worlds[i].published <= worlds[j].published
  {
    if i < j {
      PublishedStays(config, worlds, moves, i, j - 1);
      assert Step(config, worlds, moves, j - 1);
    }
  }

  /** So the host never refuses this guest for the replay watermark or for a reused
      identity, nor as foreign or malformed: what it hears is new, a replay, not
      fresh any more, or early. */
  lemma HostNeverSeesAReplay(config: Host.HostConfig, worlds: seq<World>, moves: seq<Move>, i: nat, now: U64)
    requires Run(config, worlds, moves) && i < |worlds| && worlds[i].heard.Some?
    ensures
      var admission := worlds[i].host.disk.journal.Admit(
                         worlds[i].heard.value, config.vm, config.service, now, config.tolerance);
      admission.New? || admission.Replay? || admission.reason.EarlierUnresolved? || admission.reason.NotFresh?
  {
    RunKeepsInv(config, worlds, moves, i);
    var w := worlds[i];
    var heard, admitted := w.heard.value, w.host.disk.journal.request;
    var n :| 0 <= n < |w.issued| && w.issued[n] == heard;
    assert Proper(config, w.issued[n]);
    if admitted.Some? && admitted.value != heard {
      var m :| 0 <= m < |w.issued| && w.issued[m] == admitted.value;
      assert Proper(config, w.issued[m]);
      SamePlace(w.issued, admitted.value, heard);
    }
  }

  /** Where fresh session identities matter, exactly: a process's first request,
      issued after a resolved predecessor, is refused for a reused identity or the
      watermark if and only if it runs under the predecessor's session. A session
      used before that one would do, so `Start` asks for more than is needed. */
  lemma FirstRequestIsRefusedExactlyUnderTheSameSession(
    journal: Journal, r: Request, vm: string, service: string, now: U64, tolerance: U64)
    requires journal.Valid() && journal.request.Some? && !journal.Unresolved()
            && journal.request.value.BelongsTo(vm, service)
    requires r.Valid() && r.BelongsTo(vm, service) && r.identity.sequence == 0
            && journal.request.value.issued < r.issued
    ensures
      journal.Admit(r, vm, service, now, tolerance) in {Refused(IdentityReused), Refused(BeforeWatermark)} <==>
      r.identity.session == journal.request.value.identity.session
  {
  }

  /** One such pair: the host takes the first request of the second process for a
      reuse of the first. */
  lemma ReusedSessionIsRefused(vm: string, service: string, session: string) returns (first: Request, second: Request)
    requires ValidIdentity(vm) && ValidIdentity(service) && ValidIdentity(session)
    ensures Issued(first, Identity(vm, service, session, 0), 10)
            && Issued(second, Identity(vm, service, session, 0), 20)
    ensures Journal(Some(first), Some(RejectedResult(first, 15))).Valid()
    ensures Journal(Some(first), Some(RejectedResult(first, 15))).Admit(second, vm, service, 20, 0) ==
            Refused(IdentityReused)
  {
    first := Request(1, Identity(vm, service, session, 0), Add, 1, 10, 100);
    second := Request(1, Identity(vm, service, session, 0), Add, 1, 20, 100);
  }

  // ----- the host's own runs -----

  ghost function HostWorlds(worlds: seq<World>): seq<Host.World> {
    seq(|worlds|, i requires 0 <= i < |worlds| => worlds[i].host)
  }

  /** The host's moves, where a move of the guest's leaves the device as it was. */
  ghost function MovesOfHost(worlds: seq<World>, moves: seq<Move>): seq<Host.Move>
    requires |worlds| == |moves| + 1
  {
    seq(|moves|, i requires 0 <= i < |moves| =>
      if moves[i].HostMoves? then moves[i].move else Host.Interfere(worlds[i].host.device))
  }

  /** What the host does in a joint run is a run of its own, step for step. */
  lemma HostRunsAreRuns(config: Host.HostConfig, worlds: seq<World>, moves: seq<Move>)
    requires Run(config, worlds, moves)
    ensures Host.Run(config, HostWorlds(worlds), MovesOfHost(worlds, moves))
  {
    forall i | 0 <= i < |moves|
      ensures Host.Step(config, HostWorlds(worlds), MovesOfHost(worlds, moves), i)
    {
      assert Step(config, worlds, moves, i);
    }
  }

  /** Every movement the guest has read is one the device made: from a converged
      allocation it had, to another it had later, capped at the bytes asked for. */
  lemma ReadMovementIsReal(config: Host.HostConfig, worlds: seq<World>, moves: seq<Move>, i: nat, k: nat)
    returns (a: nat, b: nat)
    requires Run(config, worlds, moves) && i < |worlds| && k < |worlds[i].read|
    requires worlds[i].read[k].outcome in {Completed, Partial}
    ensures a < b <= i && worlds[a].host.device.Converged() && worlds[b].host.device.Converged()
    ensures Accounts(worlds[i].read[k], worlds[a].host.device.current, worlds[b].host.device.current)
  {
    var report := ReadIsReported(config, worlds, moves, i, k);
    HostRunsAreRuns(config, worlds, moves);
    a, b := Host.ReportsMeasureTheDevice(config, HostWorlds(worlds), MovesOfHost(worlds, moves), i, report);
  }

  /** If the host sent a resize for the request, the movement starts from the
      allocation at which it was sent and ends after it. */
  lemma ReadMovementFollowsItsResize(config: Host.HostConfig, worlds: seq<World>, moves: seq<Move>, m: nat, i: nat,
                                     k: nat)
    returns (b: nat)
    requires Run(config, worlds, moves) && m < i < |worlds| && k < |worlds[i].read|
    requires worlds[i].read[k].outcome in {Completed, Partial}
    requires moves[m].HostMoves? && moves[m].move.Send? && moves[m].move.command.Resize?
            && !moves[m].move.answer.Rejection?
    requires worlds[m].host.disk.journal.request == Some(worlds[i].read[k].request)
    ensures m < b <= i && worlds[b].host.device.Converged()
    ensures Accounts(worlds[i].read[k], worlds[m].host.device.current, worlds[b].host.device.current)
  {
    var report := ReadIsReported(config, worlds, moves, i, k);
    HostRunsAreRuns(config, worlds, moves);
    b := Host.MovementIsConserved(config, HostWorlds(worlds), MovesOfHost(worlds, moves), m, i, report);
  }

  lemma ReadIsReported(config: Host.HostConfig, worlds: seq<World>, moves: seq<Move>, i: nat, k: nat)
    returns (report: Host.Report)
    requires Run(config, worlds, moves) && i < |worlds| && k < |worlds[i].read|
    requires worlds[i].read[k].outcome in {Completed, Partial}
    ensures report in worlds[i].host.reports && report.result == worlds[i].read[k]
  {
    RunKeepsInv(config, worlds, moves, i);
    var host := worlds[i].host;
    var n :| 0 <= n < |host.reports| && host.reports[n].result == worlds[i].read[k];
    report := host.reports[n];
  }
}
