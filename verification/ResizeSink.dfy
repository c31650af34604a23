/** The host's device commands: one guarded update for a resize or a retarget,
    and the pause, widen, restore, resume sequence that widens the usable region.
    Any command may fail, and a failed command may still have taken effect. */
module ResizeSink {
  import opened Arithmetic
  import opened Device
  import Host = HostProtocol
  import opened Wrappers

  /** What becomes of a command: it succeeds, fails having applied, or fails
      without effect. */
  datatype Fate = Succeeds | FailsApplied | FailsLost

  /** `Rejected`: no update was sent. `CommandUnknown`: one may have run. */
  datatype SinkAnswer = Accepted | Rejected | CommandUnknown

  /** The domain between two commands. */
  datatype Moment = Moment(requested: U64, paused: bool)

  /** The guest never runs while anything but `requested` is asked of the device. */
  ghost predicate NeverRunsWidened(moments: seq<Moment>, requested: U64) {
    forall i :: 0 <= i < |moments| ==> moments[i].paused || moments[i].requested == requested
  }

  /** Rejected exactly for a failed check; otherwise the update was sent. */
  function ChangeAnswer(
    device: VirtioMemState, expected: VirtioMemState, target: U64,
    retarget: bool, readable: bool, authorized: bool, stopping: bool, fate: Fate): SinkAnswer
  {
    if || !readable || !device.ValidTarget(target) || device != expected
       || expected.Converged() == retarget || (!retarget && !authorized) || stopping
    then Rejected
    else if fate.Succeeds? then Accepted
    else CommandUnknown
  }

  /** The host machine's answer: an unknown command ran or did not. */
  function HostAnswer(answer: SinkAnswer, ran: bool): Host.Answer {
    match answer
    case Accepted => Host.Done
    case Rejected => Host.Rejection
    case CommandUnknown => if ran then Host.UnknownRan else Host.UnknownLost
  }

  /** Whatever the sink answers, a change of the device the daemon has seen, to the
      target of its durable intent, is the machine's send move with that answer. */
  lemma ChangeIsSend(
    config: Host.HostConfig, w: Host.World, command: Host.Command, expected: VirtioMemState, target: U64,
    readable: bool, authorized: bool, stopping: bool, fate: Fate)
    returns (w': Host.World)
    requires !command.Widen? && w.daemon.Some? && w.daemon.value.phase == Host.Armed(command)
    requires w.daemon.value.seen == Some(expected) && w.daemon.value.control.IntentTarget() == target
    ensures
      var answer := ChangeAnswer(w.device, expected, target, command.Retarget?, readable, authorized, stopping, fate);
      && Host.Takes(config, Host.Send(command, HostAnswer(answer, fate.FailsApplied?)), w, w')
      && w'.device == if answer.Rejected? || fate.FailsLost? then w.device else expected.(requested := target)
  {
    var answer := HostAnswer(
      ChangeAnswer(w.device, expected, target, command.Retarget?, readable, authorized, stopping, fate),
      fate.FailsApplied?);
    w' := w.(
      daemon := Some(w.daemon.value.(phase := if answer.Rejection? then Host.Declined(command) else Host.Idle)),
      device := if answer.Ran() then w.device.(requested := target) else w.device,
      sent := w.sent + [Host.Sent.Sent(command, target, answer, w.disk, w.device)]);
  }

  /** Likewise for a widening that found the device as seen: the machine sends it
      with that answer, and what the guest plugged meanwhile is a change from outside.
      Unknown and unrestored, it ran; restored, it did not. */
  lemma WideningIsSend(
    config: Host.HostConfig, w: Host.World, expected: VirtioMemState, device': VirtioMemState, answer: SinkAnswer)
    returns (sent: Host.World, w': Host.World)
    requires w.daemon.Some? && w.daemon.value.phase.Idle? && !w.daemon.value.control.latched
    requires w.daemon.value.seen == Some(expected) && (!answer.Rejected? ==> w.device == expected)
    requires !answer.Rejected? ==> expected.Converged() && expected.ValidTarget(expected.MaximumTarget())
    requires !answer.CommandUnknown? ==> device'.requested == w.device.requested
    requires answer.CommandUnknown? ==> device'.requested in {expected.requested, expected.MaximumTarget()}
    ensures
      var ran := device'.requested != expected.requested;
      && Host.Takes(config, Host.Send(Host.Command.Widen, HostAnswer(answer, ran)), w, sent)
      && sent.device.requested == device'.requested
      && Host.Takes(config, Host.Interfere(device'), sent, w')
  {
    var ran := device'.requested != expected.requested;
    sent := w.(
      device := if answer.CommandUnknown? && ran then expected.(requested := expected.MaximumTarget()) else w.device,
      sent := w.sent + [Host.Sent.Sent(
        Host.Command.Widen, w.device.MaximumTarget(), HostAnswer(answer, ran), w.disk, w.device)]);
    w' := sent.(device := device');
  }

  class Domain {
    var device: VirtioMemState
    var paused: bool
    ghost var moments: seq<Moment>

    constructor (device: VirtioMemState)
      ensures this.device == device && !paused && moments == []
    {
      this.device, paused, moments := device, false, [];
    }

    /** The guest plugs or unplugs, which it can only do while it runs. */
    method Drift(current: U64)
      requires !paused
      modifies this`device
      ensures device == old(device).(current := current)
    {
      device := device.(current := current);
    }

    method Update(target: U64, fate: Fate) returns (ok: bool)
      modifies this`device, this`moments
      ensures ok == fate.Succeeds?
      ensures device == if fate.FailsLost? then old(device) else old(device).(requested := target)
      ensures moments == old(moments) + [Moment(device.requested, paused)]
    {
      ok := fate.Succeeds?;
      if !fate.FailsLost? {
        device := device.(requested := target);
      }
      moments := moments + [Moment(device.requested, paused)];
    }

    method Power(pause: bool, fate: Fate) returns (ok: bool)
      modifies this`paused, this`moments
      ensures ok == fate.Succeeds?
      ensures paused == if fate.FailsLost? then old(paused) else pause
      ensures moments == old(moments) + [Moment(device.requested, paused)]
    {
      ok := fate.Succeeds?;
      if !fate.FailsLost? {
        paused := pause;
      }
      moments := moments + [Moment(device.requested, paused)];
    }

    /** A resize or a retarget: read the device, check it against the state the
        decision was made on, and send one update. `readable` stands for the live
        read and its compatibility evidence, `authorized` for the caller's check. */
    method Change(expected: VirtioMemState, target: U64, retarget: bool, readable: bool, authorized: bool,
                  stopping: bool, fate: Fate)
      returns (answer: SinkAnswer)
      modifies this`device, this`moments
      ensures answer == ChangeAnswer(old(device), expected, target, retarget, readable, authorized, stopping, fate)
      ensures answer.Rejected? ==> device == old(device) && moments == old(moments)
      ensures answer.Accepted? ==> device == expected.(requested := target)
      ensures answer.CommandUnknown? ==>
              device == if fate.FailsApplied? then expected.(requested := target) else expected
    {
      if !readable || !device.ValidTarget(target) { return Rejected; }
      if device != expected || (device.requested == device.current) == retarget { return Rejected; }
      if !retarget && !authorized { return Rejected; }
      if stopping { return Rejected; }
      var ok := Update(target, fate);
      return if ok then Accepted else CommandUnknown;
    }

    /** With the domain paused: ask for the whole device, then for the original size
        again. A restore that fails is prepared afresh and tried once more. */
    method WidenAndRestore(expected: VirtioMemState, widen: Fate, restore: Fate, rereadable: bool, retry: Fate)
      returns (widened: bool, restored: bool)
      requires paused && expected.Valid() && device == expected.(current := device.current)
      modifies this`device, this`moments
      ensures widened == widen.Succeeds?
      ensures restored <==>
              restore.Succeeds?
              || (CanRetry(expected, old(device).current, rereadable) && retry.Succeeds?)
      ensures device == expected.(requested := device.requested, current := old(device).current)
      ensures restored ==> device.requested == expected.requested
      ensures device.requested == expected.requested || device.requested == expected.MaximumTarget()
      ensures restore.FailsLost? && !widen.FailsLost? && !CanRetry(expected, old(device).current, rereadable) ==>
                device.requested == expected.MaximumTarget()
      ensures |old(moments)| < |moments| && old(moments) <= moments
      ensures forall i :: |old(moments)| <= i < |moments| ==> moments[i].paused
      ensures widened ==> moments[|old(moments)|] == Moment(expected.MaximumTarget(), true)
    {
      widened := Update(expected.MaximumTarget(), widen);
      restored := Update(expected.requested, restore);
      if !restored && rereadable && device.ValidTarget(expected.requested) && device.current == expected.current {
        restored := Update(expected.requested, retry);
      }
    }

    /** The fresh preparation of a restore finds the device readable and its allocation unchanged. */
    static ghost predicate CanRetry(expected: VirtioMemState, current: U64, rereadable: bool) {
      rereadable && current == expected.current
    }

    /** Widen the usable region: pause, ask for the whole device, ask for the
        original size again, and resume only once that is known to be asked for. */
    method WidenUsableRegion(
      expected: VirtioMemState, readable: bool, stopping: bool, current: U64,
      suspend: Fate, widen: Fate, restore: Fate, rereadable: bool, retry: Fate, resume: Fate)
      returns (answer: SinkAnswer)
      requires !paused
      modifies this
      ensures old(moments) <= moments
      ensures NeverRunsWidened(moments[|old(moments)|..], old(device.requested))
      ensures answer.Rejected? <==> !Begins(old(device), expected, readable, stopping) || !suspend.Succeeds?
      ensures answer.Rejected? ==> device.requested == old(device.requested)
      ensures answer.Rejected? ==> (paused <==>
                                    Begins(old(device), expected, readable, stopping) && suspend.FailsApplied?)
      ensures !answer.Rejected? ==>
                var restored := restore.Succeeds? || (CanRetry(expected, current, rereadable) && retry.Succeeds?);
                && (answer.Accepted? <==> widen.Succeeds? && restored && resume.Succeeds?)
                && (!restored ==> paused && (device.requested == expected.requested
                                             || device.requested == expected.MaximumTarget()))
                && (restored ==> device.requested == old(device.requested) && (paused <==> resume.FailsLost?))
                && (answer.Accepted? ==> |old(moments)| + 1 < |moments|
                                         && moments[|old(moments)| + 1] == Moment(expected.MaximumTarget(), true))
    {
      var ceiling := expected.MaximumTarget();
      if !readable || !device.ValidTarget(ceiling) || device != expected || device.requested != device.current {
        return Rejected;
      }
      if !device.ValidTarget(expected.requested) || stopping { return Rejected; }
      Drift(current);
      var suspended := Power(true, suspend);
      if !suspended { return Rejected; }
      var widened, restored := WidenAndRestore(expected, widen, restore, rereadable, retry);
      if !restored { return CommandUnknown; }
      var resumed := Power(false, resume);
      return if widened && resumed then Accepted else CommandUnknown;
    }

    /** The checks before the domain is paused. */
    static ghost predicate Begins(device: VirtioMemState, expected: VirtioMemState, readable: bool, stopping: bool) {
      readable && !stopping && device == expected && expected.Converged()
          && expected.ValidTarget(expected.MaximumTarget())
    }
  }
}
