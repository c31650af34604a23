/** The guest service's worker: sample, decide, persist, publish. Each of its
    steps is a move of the protocol machine, and what it does extends a run of that
    machine, between whose steps the host makes any moves of its own. So whatever
    all runs guarantee holds of the worker. */
module GuestWorkers {
  import opened Arithmetic
  import opened Requests
  import opened GuestRequests
  import opened Handshake
  import Estimation
  import Host = HostProtocol
  import opened Wrappers

  /** What becomes of a file replacement: the new contents are in place and it is
      reported; they are not; or they are, and a failure is reported. */
  datatype Replacement = Replaced | FailedBefore | FailedAfter {
    predicate Landed() { !FailedBefore? }
  }

  /** A replacement, and whether the service is told to stop in its midst. */
  datatype Fate = Fate(replacement: Replacement, stopped: bool)

  class GuestWorker {
    const config: Host.HostConfig
    const requester: GuestRequester
    /** The durable request state. */
    var file: GuestState
    /** The request in the published envelope. */
    var publication: Option<Request>
    var stopping: bool
    ghost var worlds: seq<World>
    ghost var moves: seq<Move>

    /** Start a service over the retained file, at the end of any run in which no
        service is left and the session is not used yet. */
    constructor (config: Host.HostConfig, requester: GuestRequester, publication: Option<Request>,
                 ghost worlds: seq<World>, ghost moves: seq<Move>)
      requires requester.Valid() && requester.nextSequence == 0
      requires config.vm == requester.vm && config.service == requester.service
      requires Run(config, worlds, moves)
      requires
        var world := worlds[|moves|];
        && world.guest.None? && world.file == requester.state && requester.session !in world.used
        && world.publication == publication
      ensures this.config == config && this.requester == requester
      ensures At(Ready) && !stopping && file == requester.state && this.publication == publication
              && worlds <= this.worlds
    {
      this.config, this.requester, this.publication := config, requester, publication;
      file, stopping := requester.state, false;
      this.worlds, this.moves := worlds, moves;
      new;
      ghost var process := Process(requester.session, 0, requester.state, false, Ready);
      Take(Start(requester.session), Now().(guest := Some(process), used := Now().used + {requester.session}));
    }

    ghost function Now(): World
      reads this
      requires worlds != []
    {
      worlds[|worlds| - 1]
    }

    /** The steps so far are a run of the machine. */
    ghost predicate Traced()
      reads this
    {
      Run(config, worlds, moves)
    }

    /** The machine stands where the worker stands. */
    ghost predicate At(todo: Todo)
      reads this, requester
    {
      && Traced()
      && config.vm == requester.vm && config.service == requester.service
      && Now().file == file && Now().publication == publication
      && Now().guest == Some(Process(requester.session, requester.nextSequence, requester.state, stopping, todo))
    }

    /** The worker is gone; its files are what the machine says. */
    ghost predicate Gone()
      reads this
    {
      Traced() && Now().file == file && Now().publication == publication && Now().guest.None?
    }

    ghost method Take(move: Move, next: World)
      requires Traced() && Takes(config, move, Now(), next)
      modifies this`worlds, this`moves
      ensures Traced() && Now() == next && worlds == old(worlds) + [next] && moves == old(moves) + [move]
    {
      worlds, moves := worlds + [next], moves + [move];
      forall i | 0 <= i < |moves|
        ensures Step(config, worlds, moves, i)
      {
        assert i < |old(moves)| ==> Step(config, old(worlds), old(moves), i);
      }
    }

    /** The host makes any number of any moves it can. */
    ghost method Meanwhile(todo: Todo, steps: nat)
      requires At(todo)
      modifies this`worlds, this`moves
      ensures At(todo) && old(worlds) <= worlds
      decreases steps
    {
      ghost var move: Move := *;
      ghost var next: World := *;
      if 0 < steps && (move.Hear? || move.Post? || move.HostMoves?) && Takes(config, move, Now(), next) {
        Take(move, next);
        Meanwhile(todo, steps - 1);
      }
    }

    method Stop(ghost todo: Todo)
      requires At(todo)
      modifies this`stopping, this`worlds, this`moves
      ensures At(todo) && stopping && old(worlds) <= worlds
    {
      ghost var next := Now().(guest := Some(Now().guest.value.(cancelled := true)));
      Take(Cancel, next);
      stopping := true;
      ghost var steps: nat := *;
      Meanwhile(todo, steps);
    }

    /** Replace the durable state. A stopping service reports success whatever happened. */
    method PersistState(fate: Fate, ghost request: Option<Request>) returns (ok: bool)
      requires At(Persist(request))
      modifies this`file, this`stopping, this`worlds, this`moves
      ensures old(worlds) <= worlds
      ensures if ok then At(Publish(request)) else Gone()
      ensures stopping == (old(stopping) || fate.stopped) && (ok <==> stopping || fate.replacement.Replaced?)
      ensures file == if fate.replacement.FailedBefore? then old(file) else requester.state
    {
      ghost var steps: nat := *;
      Meanwhile(Persist(request), steps);
      if fate.stopped {
        Stop(Persist(request));
      }
      ok := stopping || fate.replacement.Replaced?;
      var landed := fate.replacement.Landed();
      ghost var w := Now();
      ghost var next := w.(
        guest := if ok then Some(w.guest.value.(todo := Publish(request))) else None,
        file := if landed then w.guest.value.state else w.file,
        issued := if landed && request.Some? then w.issued + [request.value] else w.issued);
      Take(PersistEnds(landed, ok), next);
      if landed {
        file := requester.state;
      }
    }

    /** Publish the request, unless the service is stopping. */
    method PublishRequest(request: Option<Request>, fate: Fate) returns (ok: bool)
      requires At(Publish(request))
      modifies this`publication, this`stopping, this`worlds, this`moves
      ensures old(worlds) <= worlds
      ensures if ok then At(Ready) else Gone()
      ensures old(stopping) ==> ok && stopping && publication == old(publication)
      ensures !old(stopping) ==>
                && stopping == fate.stopped && (ok <==> stopping || fate.replacement.Replaced?)
                && publication == if fate.replacement.FailedBefore? then old(publication) else request
    {
      ghost var p := Now().guest.value;
      Take(PublishStarts, Now().(guest := Some(p.(todo := if p.cancelled then Ready else Writing(request)))));
      if stopping { return true; }
      ghost var steps: nat := *;
      Meanwhile(Writing(request), steps);
      if fate.stopped {
        Stop(Writing(request));
      }
      ok := stopping || fate.replacement.Replaced?;
      var landed := fate.replacement.Landed();
      ghost var w := Now();
      ghost var next := w.(
        guest := if ok then Some(w.guest.value.(todo := Ready)) else None,
        publication := if landed then request else w.publication,
        last := if landed && request.Some? then request else w.last,
        published := if landed && request.Some? then w.published + {request.value} else w.published);
      Take(PublishEnds(landed, ok), next);
      if landed {
        publication := request;
      }
    }

    ghost method Die()
      requires Traced() && Now().file == file && Now().publication == publication
      modifies this`worlds, this`moves
      ensures Gone() && old(worlds) <= worlds
    {
      Take(Move.Die, Now().(guest := None));
    }

    /** A worker that is not stopping holds exactly what its file holds, as all runs do. */
    lemma StateIsDurable()
      requires At(Ready) && !stopping
      ensures file == requester.state
    {
      RunKeepsInv(config, worlds, moves, |moves|);
      assert InStep(config, Now(), Now().guest.value);
    }

    /** One poll of the worker: what is published is what the file already holds. */
    method PollOnce(sample: Estimation.Sample, status: Option<HostStatus>, persist: Fate, publish: Fate)
      returns (ok: bool)
      requires At(Ready) && !stopping && requester.Valid()
      requires status.Some? ==> status.value in Now().posted
      modifies this, requester, requester.estimator
      ensures old(worlds) <= worlds
      ensures ok ==> At(Ready) && requester.Valid() && (stopping || file == requester.state)
      ensures !ok ==> Gone()
      ensures publication == old(publication) || publication == file.pending
      ensures ok && !stopping ==> publication == file.pending
    {
      StateIsDurable();
      var polled := Decide(sample, status);
      if polled.Failed? { return false; }
      var decision := polled.decision;
      if decision.persist {
        ok := PersistState(persist, decision.request);
        if !ok { return; }
      }
      ghost var steps: nat := *;
      Meanwhile(Publish(decision.request), steps);
      ok := PublishRequest(decision.request, publish);
    }

    method Decide(sample: Estimation.Sample, status: Option<HostStatus>) returns (polled: Polled)
      requires At(Ready) && !stopping && requester.Valid()
      requires status.Some? ==> status.value in Now().posted
      modifies this`worlds, this`moves, requester, requester.estimator
      ensures old(worlds) <= worlds
      ensures polled.Failed? ==> Gone()
      ensures polled.Decided? ==>
                && requester.Valid() && polled.decision.request == requester.state.pending
                && (polled.decision.persist || old(requester.state) == requester.state)
                && At(if polled.decision.persist then Persist(polled.decision.request)
                      else Publish(polled.decision.request))
    {
      ghost var p := Now().guest.value;
      ghost var estimate;
      polled, estimate := requester.Poll(sample, status);
      if polled.Failed? {
        Die();
      } else {
        ghost var decision := polled.decision;
        ghost var todo := if decision.persist then Persist(decision.request) else Publish(decision.request);
        ghost var w := Now();
        ghost var next := w.(
          guest := Some(p.(state := requester.state, sequence := requester.nextSequence, todo := todo)),
          read := if decision.resolved.Some? then w.read + [decision.resolved.value] else w.read);
        Take(Poll(sample.observed, requester.Usable(status), requester.state, requester.nextSequence, decision), next);
      }
    }
  }
}
