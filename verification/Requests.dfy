/** Guest-owned requests, host results, and the journal that admits one request
    at a time. The journal is a value inside the host's durable control state;
    each operation gives the journal that replaces it. */
module Requests {
  import opened Arithmetic
  import opened Text
  import opened Wrappers

  const MEMORY_REQUEST_VERSION: U64 := 1
  const MAX_REQUEST_LIFETIME_MILLIS: U64 := 60_000

  /** Non-empty printable ASCII of at most 128 bytes. */
  predicate ValidIdentity(text: string) {
    && |text| <= 128
    && (forall i :: 0 <= i < |text| ==> ' ' <= text[i] <= '~')
    && (exists i :: 0 <= i < |text| && text[i] != ' ')
  }

  /** At most 128 printable ASCII characters, not all of them blank. */
  lemma IdentityExactly(text: string)
    ensures ValidIdentity(text) <==>
            |text| <= 128 && !IsBlank(text) && forall i :: 0 <= i < |text| ==> 0x20 <= text[i] as int <= 0x7E
  {
  }

  datatype Identity = Identity(vm: string, service: string, session: string, sequence: U64)

  datatype Operation = Add | Remove

  datatype Request = Request(
    version: U64,
    identity: Identity,
    operation: Operation,
    bytes: U64,
    issued: U64,
    expires: U64
  ) {
    predicate Valid() {
      && version == MEMORY_REQUEST_VERSION
      && ValidIdentity(identity.vm)
      && ValidIdentity(identity.service)
      && ValidIdentity(identity.session)
      && 0 < bytes
      && 0 < issued < expires
      && expires - issued <= MAX_REQUEST_LIFETIME_MILLIS
    }

    predicate BelongsTo(vm: string, service: string) {
      identity.vm == vm && identity.service == service
    }

    predicate ValidAt(vm: string, service: string, now: U64, tolerance: U64) {
      && Valid()
      && BelongsTo(vm, service)
      && issued <= SatAdd(now, tolerance)
      && now < expires
    }
  }

  datatype Outcome = Completed | Partial | PoolEmpty | Rejected | Uncertain

  /** `explained` stands for a present reason text, already bounded. */
  datatype MemoryResult = MemoryResult(
    request: Request,
    outcome: Outcome,
    actual: U64,
    observed: U64,
    explained: bool
  ) {
    predicate ValidFor(r: Request) {
      && request.Valid()
      && request == r
      && 0 < observed
      && actual <= r.bytes
      && match outcome {
        case Completed => actual == r.bytes
        case Partial => actual < r.bytes
        case PoolEmpty => r.operation.Add? && actual == 0
        case Rejected => actual == 0 && explained
        case Uncertain => explained
      }
    }

    predicate Terminal() { !outcome.Uncertain? }
  }

  function RejectedResult(request: Request, now: U64): MemoryResult {
    MemoryResult(request, Rejected, 0, now, true)
  }

  datatype Refusal =
    | InvalidJournal
    | InvalidRequest
    | ForeignRequest
    | ForeignJournal
    | IdentityReused
    | EarlierUnresolved
    | BeforeWatermark
    | NotFresh

  datatype Admission = New(journal: Journal) | Replay | Refused(reason: Refusal)

  datatype Journal = Journal(request: Option<Request>, result: Option<MemoryResult>) {
    predicate Valid() {
      if request.None? then result.None?
      else request.value.Valid() && (result.Some? ==> result.value.ValidFor(request.value))
    }

    /** The admitted request has no terminal result yet. */
    predicate Unresolved() {
      result.None? || !result.value.Terminal()
    }

    function Admit(r: Request, vm: string, service: string, now: U64, tolerance: U64): Admission {
      if !Valid() then Refused(InvalidJournal)
      else if !r.Valid() then Refused(InvalidRequest)
      else if !r.BelongsTo(vm, service) then Refused(ForeignRequest)
      else if request.Some? && !request.value.BelongsTo(vm, service) then Refused(ForeignJournal)
      else if request.Some? && request.value.identity == r.identity then
        if request.value != r then Refused(IdentityReused) else Replay
      else if request.Some? && Unresolved() then Refused(EarlierUnresolved)
      else if request.Some? && BehindWatermark(request.value, r) then Refused(BeforeWatermark)
      else if !r.ValidAt(vm, service, now, tolerance) then Refused(NotFresh)
      else New(Journal(Some(r), None))
    }

    /** The journal with `r` recorded, unless the record would contradict it. */
    function Record(r: MemoryResult): Option<Journal> {
      if !Valid() || request.None? || !r.ValidFor(request.value) then None
      else if result.Some? && result.value.Terminal() && result.value != r then None
      else if result.Some? && r.observed < result.value.observed then None
      else Some(Journal(request, Some(r)))
    }
  }

  predicate BehindWatermark(previous: Request, r: Request) {
    || r.issued <= previous.issued
    || (r.identity.session == previous.identity.session && r.identity.sequence <= previous.identity.sequence)
  }

  /** Successive admissions: what the journal alone lets follow an admitted request. */
  predicate Follows(previous: Request, r: Request) {
    && previous.issued < r.issued
    && (r.identity.session == previous.identity.session ==>
          previous.identity.sequence < r.identity.sequence)
  }

  ghost predicate Succession(admitted: seq<Request>) {
    forall i :: 0 < i < |admitted| ==> Follows(admitted[i - 1], admitted[i])
  }

  lemma {:induction false} IssueTimesIncrease(admitted: seq<Request>, i: nat, j: nat)
    requires Succession(admitted) && i < j < |admitted|
    ensures admitted[i].issued < admitted[j].issued
  {
    assert Follows(admitted[j - 1], admitted[j]);
    if i < j - 1 {
      IssueTimesIncrease(admitted, i, j - 1);
    }
  }

  /** An identity recurs only after a request of another session came between:
      the journal compares a request with its immediate predecessor alone. */
  lemma {:induction false} IdentityRecursOnlyAcrossSessions(admitted: seq<Request>, i: nat, j: nat)
    requires Succession(admitted) && i < j < |admitted|
    requires forall k :: i <= k <= j ==> admitted[k].identity.session == admitted[i].identity.session
    ensures admitted[i].identity.sequence < admitted[j].identity.sequence
  {
    assert Follows(admitted[j - 1], admitted[j]);
    if i < j - 1 {
      IdentityRecursOnlyAcrossSessions(admitted, i, j - 1);
    }
  }

  /** `r` is newly admitted under the identity `d`. */
  ghost predicate AdmittedAs(d: Identity, r: Request, journal: Journal, now: U64, tolerance: U64) {
    r.identity == d && journal.Admit(r, d.vm, d.service, now, tolerance).New?
  }

  /** Used before or not, an identity is newly admitted after a resolved request, for
      some request, exactly if it is of another session or of a later number, and the
      clock leaves an issue time after that request's. */
  lemma IdentityIsAdmittedExactlyByItsPredecessor(journal: Journal, d: Identity, now: U64, tolerance: U64)
    requires journal.Valid() && journal.request.Some? && !journal.Unresolved()
    requires journal.request.value.BelongsTo(d.vm, d.service)
    requires ValidIdentity(d.vm) && ValidIdentity(d.service) && ValidIdentity(d.session)
    ensures
      var previous := journal.request.value;
      (exists r :: AdmittedAs(d, r, journal, now, tolerance)) <==>
      && (d.session != previous.identity.session || previous.identity.sequence < d.sequence)
      && previous.issued < SatAdd(now, tolerance) && Max(previous.issued + 1, now) < U64_MAX
  {
    var previous := journal.request.value;
    if && (d.session != previous.identity.session || previous.identity.sequence < d.sequence)
       && previous.issued < SatAdd(now, tolerance) && Max(previous.issued + 1, now) < U64_MAX
    {
      var issued := Max(previous.issued + 1, now);
      assert AdmittedAs(d, Request(1, d, Add, 1, issued, issued + 1), journal, now, tolerance);
    }
  }

  /** ... and then it does recur: three admissions in a row, the third under the
      identity of the first. */
  lemma IdentityMayRecur(vm: string, service: string)
    returns (first: Request, second: Request, third: Request)
    requires ValidIdentity(vm) && ValidIdentity(service)
    ensures first.identity == third.identity && first != third
    ensures
      var empty := Journal(None, None);
      var one := empty.Admit(first, vm, service, 10, 0);
      && one.New?
      && var resolved := one.journal.Record(RejectedResult(first, 10));
      && resolved.Some?
      && var two := resolved.value.Admit(second, vm, service, 20, 0);
      && two.New?
      && var closed := two.journal.Record(RejectedResult(second, 20));
      && closed.Some?
      && closed.value.Admit(third, vm, service, 30, 0).New?
  {
    var a, b := "a", "b";
    assert a[0] != ' ' && b[0] != ' ';
    first := Request(1, Identity(vm, service, a, 0), Add, 1, 10, 100);
    second := Request(1, Identity(vm, service, b, 0), Add, 1, 20, 100);
    third := Request(1, Identity(vm, service, a, 0), Add, 1, 30, 100);
  }

  /** Everything but freshness that an admission asks of a request. */
  predicate Admissible(journal: Journal, r: Request, vm: string, service: string) {
    && journal.Valid() && r.Valid() && r.BelongsTo(vm, service)
    && (journal.request.Some? ==>
          && journal.request.value.BelongsTo(vm, service)
          && journal.request.value.identity != r.identity
          && !journal.Unresolved()
          && Follows(journal.request.value, r))
  }

  /** An admission is new exactly for an admissible request that is fresh now, so
      an admission decided earlier stands at the effect boundary while it is fresh. */
  lemma NewExactlyWhenAdmissible(journal: Journal, r: Request, vm: string, service: string, now: U64, tolerance: U64)
    ensures journal.Admit(r, vm, service, now, tolerance).New? <==>
            Admissible(journal, r, vm, service) && r.ValidAt(vm, service, now, tolerance)
    ensures journal.Admit(r, vm, service, now, tolerance).New? ==>
              journal.Admit(r, vm, service, now, tolerance).journal == Journal(Some(r), None)
  {
  }

  /** What makes a request admissible: it is well formed, within its lifetime, of this VM
      and service, and its predecessor is resolved, of the same VM and service, issued
      earlier and, in the same session, numbered lower. */
  lemma AdmissibleExactly(journal: Journal, r: Request, vm: string, service: string)
    ensures
      Admissible(journal, r, vm, service) <==>
      && journal.Valid() && r.version == MEMORY_REQUEST_VERSION
      && r.identity.vm == vm && r.identity.service == service
      && ValidIdentity(vm) && ValidIdentity(service) && ValidIdentity(r.identity.session)
      && r.bytes != 0 && 0 < r.issued < r.expires <= r.issued + 60_000
      && match journal.request
         case None => true
         case Some(previous) =>
           && journal.result.Some? && !journal.result.value.outcome.Uncertain?
           && previous.identity.vm == vm && previous.identity.service == service && previous.issued < r.issued
           && (previous.identity.session == r.identity.session ==> previous.identity.sequence < r.identity.sequence)
  {
  }

  /** A result is recorded exactly if it is one of the admitted request, its outcome fits
      its movement, it repeats a terminal result if there is one, and is not older. */
  lemma RecordedExactly(journal: Journal, r: MemoryResult)
    ensures
      journal.Record(r).Some? <==>
      && journal.Valid() && journal.request == Some(r.request) && r.observed != 0
      && (r.outcome.Completed? ==> r.actual == r.request.bytes)
      && (r.outcome.Partial? ==> r.actual < r.request.bytes)
      && (r.outcome.PoolEmpty? ==> r.request.operation.Add? && r.actual == 0)
      && (r.outcome.Rejected? ==> r.actual == 0 && r.explained)
      && (r.outcome.Uncertain? ==> r.actual <= r.request.bytes && r.explained)
      && match journal.result
         case None => true
         case Some(earlier) => if earlier.outcome.Uncertain? then earlier.observed <= r.observed else earlier == r
    ensures journal.Record(r).Some? ==> journal.Record(r).value == Journal(journal.request, Some(r))
  {
  }

  /** A terminal result is never replaced. */
  lemma TerminalResultStays(journal: Journal, r: MemoryResult)
    requires journal.result.Some? && journal.result.value.Terminal()
    requires journal.Record(r).Some?
    ensures journal.Record(r).value == journal
  {
  }
}
