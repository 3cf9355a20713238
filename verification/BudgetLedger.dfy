/**
 What a run does to its scope while it works: reserving an operation before it is dispatched and settling it with
 whatever usage became known. The allowance arithmetic is a parameter; the evidence a scope keeps is not.
 */
module BudgetLedger {
  import opened Wrappers
  import opened ExecutionLimits
  import opened BudgetRegistry
  import opened BudgetAdmission
  import opened BudgetHost

  function Max(a: nat, b: nat): nat { if a < b then b else a }

  /** The larger count of each kind, where either is known. */
  function Merge(a: Option<TokenUsage>, b: Option<TokenUsage>): Option<TokenUsage> {
    if a.None? then b
    else if b.None? then a
    else Some(TokenUsage(Max(a.value.prompt, b.value.prompt), Max(a.value.completion, b.value.completion), Max(a.value.total, b.value.total),
                         Max(a.value.cachedPrompt, b.value.cachedPrompt), Max(a.value.reasoning, b.value.reasoning)))
  }

  /** Merging is the join of the order in which usage is retained. */
  lemma MergeIsLeast(a: Option<TokenUsage>, b: Option<TokenUsage>, c: Option<TokenUsage>)
    ensures RetainsUsage(Merge(a, b), a) && RetainsUsage(Merge(a, b), b)
    ensures RetainsUsage(c, a) && RetainsUsage(c, b) ==> RetainsUsage(c, Merge(a, b))
    ensures Merge(Merge(a, b), b) == Merge(a, b)
  {
  }

  // ---------------------------------------------------------------- reservations

  /** A granted operation; a repeated request with the same content is history and grants nothing. */
  function Reserve(s: Scope, request: Request, nowMs: nat, allowed: Allowance): Result<Scope> {
    if !ValidScope(s) || !ValidRequest(request) then Err
    else if request.id in s.reservations then
      if s.reservations[request.id].request == request then Ok(s) else Err
    else if nowMs < s.createdAtMs || nowMs >= s.deadlineAtMs || s.version + 1 > U64_MAX then Err
    else
      var next := s.(version := s.version + 1, reservations := s.reservations[request.id := Reservation(request, None, None)]);
      if ValidScope(next) && allowed(next, nowMs) then Ok(next) else Err
  }

  // ---------------------------------------------------------------- settlements

  function OutcomeUsage(o: Outcome): Option<TokenUsage> {
    match o
    case Known(usage) => Some(usage)
    case Unknown(observed) => observed
    case ProvenNeverSent => None
  }

  /** The outcome recorded when one is already there; None where the two contradict each other. */
  function Reconcile(previous: Outcome, next: Outcome): Option<Outcome> {
    match (previous, next)
    case (Unknown(a), Unknown(b)) => Some(Unknown(Merge(a, b)))
    case (Unknown(_), Known(_)) => Some(next)
    case (Known(a), Known(b)) => if a == b then Some(next) else None
    case (Known(_), Unknown(_)) => Some(previous)
    case (ProvenNeverSent, ProvenNeverSent) => Some(next)
    case (ProvenNeverSent, Unknown(None)) => Some(previous)
    case _ => None
  }

  /** All usage seen for a reservation, this settlement's included. */
  function Observed(existing: Reservation, settlement: Settlement): Option<TokenUsage> {
    Merge(existing.observedUsage, Merge(settlement.observedUsage, OutcomeUsage(settlement.outcome)))
  }

  /** The settlement as it is recorded over what is there. */
  function Recorded(existing: Reservation, settlement: Settlement): Option<Settlement> {
    var seen := settlement.(observedUsage := Observed(existing, settlement));
    if existing.settlement.None? then Some(seen)
    else
      var previous := existing.settlement.value;
      match Reconcile(previous.outcome, settlement.outcome)
      case None => None
      case Some(outcome) => Some(seen.(outcome := outcome, physicalRetired := settlement.physicalRetired || previous.physicalRetired))
  }

  function Settle(s: Scope, settlement: Settlement): Result<Scope> {
    var id := settlement.reservationId;
    if !ValidScope(s) || id !in s.reservations then Err
    else
      var existing := s.reservations[id];
      match Recorded(existing, settlement)
      case None => Err
      case Some(recorded) =>
        var settled := existing.(settlement := Some(recorded), observedUsage := Observed(existing, settlement));
        if settled == existing then Ok(s)
        else if s.version + 1 > U64_MAX then Err
        else
          var next := s.(version := s.version + 1, reservations := s.reservations[id := settled]);
          if ValidScope(next) then Ok(next) else Err
  }

  /** What a settlement has seen is what its reservation has seen. */
  predicate SettledScope(s: Scope) {
    forall id | id in s.reservations :: SettledReservation(s.reservations[id])
  }

  predicate SettledReservation(r: Reservation) {
    r.settlement.Some? ==> r.settlement.value.observedUsage == r.observedUsage
  }

  /** A reservation adds itself and changes nothing else. */
  lemma ReserveKeeps(s: Scope, request: Request, nowMs: nat, allowed: Allowance)
    requires Reserve(s, request, nowMs, allowed).Ok?
    ensures var t := Reserve(s, request, nowMs, allowed).value;
      && ValidScope(t) && RetainsScope(t, s) && t.id == s.id
      && request.id in t.reservations && t.reservations[request.id].request == request
      && (t == s <==> request.id in s.reservations)
      && (SettledScope(s) ==> SettledScope(t))
  {
    RetainsScopeReflexive(s);
  }

  /** When a new operation is granted, and what is then on record: never at or after the deadline. */
  lemma ReserveGrants(s: Scope, request: Request, nowMs: nat, allowed: Allowance)
    requires ValidScope(s) && ValidRequest(request)
    ensures request.id in s.reservations ==>
      (Reserve(s, request, nowMs, allowed).Ok? <==> s.reservations[request.id].request == request)
    ensures request.id !in s.reservations && Reserve(s, request, nowMs, allowed).Ok? ==>
      var t := Reserve(s, request, nowMs, allowed).value;
      && s.createdAtMs <= nowMs < s.deadlineAtMs && allowed(t, nowMs)
      && t.version == s.version + 1 && t.limits == s.limits && t.deadlineAtMs == s.deadlineAtMs
      && t.reservations.Keys == s.reservations.Keys + {request.id} && |s.reservations| < MAX_RESERVATIONS
      && t.reservations[request.id].settlement.None? && t.reservations[request.id].observedUsage.None?
    ensures nowMs >= s.deadlineAtMs && request.id !in s.reservations ==> Reserve(s, request, nowMs, allowed).Err?
    ensures (&& request.id !in s.reservations && s.createdAtMs <= nowMs < s.deadlineAtMs && s.version < U64_MAX
             && |s.reservations| < MAX_RESERVATIONS && forall t :: allowed(t, nowMs)) ==> Reserve(s, request, nowMs, allowed).Ok?
  {
    if request.id !in s.reservations {
      OneMoreReservation(s, request);
    }
  }

  lemma OneMoreReservation(s: Scope, request: Request)
    requires ValidScope(s) && ValidRequest(request) && request.id !in s.reservations
    ensures var reservations := s.reservations[request.id := Reservation(request, None, None)];
      && reservations.Keys == s.reservations.Keys + {request.id} && |reservations| == |s.reservations| + 1
      && (ValidScope(s.(version := s.version + 1, reservations := reservations)) <==> |s.reservations| < MAX_RESERVATIONS)
  {
    var reservations := s.reservations[request.id := Reservation(request, None, None)];
    assert reservations.Keys == s.reservations.Keys + {request.id};
    assert |reservations| == |reservations.Keys| && |s.reservations| == |s.reservations.Keys|;
    assert ValidReservation(request.id, reservations[request.id]);
  }

  /** Which outcome may follow which: a known or refuted attempt stays so, an unknown one may become known. */
  predicate Follows(previous: Outcome, next: Outcome) {
    || (previous.Unknown? && !next.ProvenNeverSent?)
    || (previous.Known? && (next == previous || next.Unknown?))
    || (previous.ProvenNeverSent? && (next == previous || next == Unknown(None)))
  }

  /** What a settlement leaves on record of one reservation. */
  ghost predicate Settles(was: Reservation, now: Reservation, settlement: Settlement) {
    && now.request == was.request && now.settlement.Some? && now.settlement.value.observedUsage == now.observedUsage
    && RetainsUsage(now.observedUsage, was.observedUsage) && RetainsUsage(now.observedUsage, settlement.observedUsage)
    && RetainsUsage(now.observedUsage, OutcomeUsage(settlement.outcome))
    && now.settlement.value.physicalRetired ==
         (settlement.physicalRetired || (was.settlement.Some? && was.settlement.value.physicalRetired))
    && (was.settlement.None? ==> now.settlement.value.outcome == settlement.outcome)
    && (was.settlement.Some? ==> Replaces(was.settlement.value.outcome, now.settlement.value.outcome, settlement.outcome))
  }

  /** A final outcome stays, an unknown one becomes the known one or gathers what either has seen. */
  ghost predicate Replaces(was: Outcome, now: Outcome, given: Outcome) {
    && Follows(was, given)
    && (!was.Unknown? ==> now == was)
    && (was.Unknown? && given.Known? ==> now == given)
    && (was.Unknown? && given.Unknown? ==>
          now.Unknown? && RetainsUsage(now.observed, was.observed) && RetainsUsage(now.observed, given.observed))
  }

  lemma ReconcileReplaces(was: Outcome, given: Outcome)
    ensures Reconcile(was, given).Some? <==> Follows(was, given)
    ensures Reconcile(was, given).Some? ==> Replaces(was, Reconcile(was, given).value, given)
  {
    if was.Unknown? && given.Unknown? { MergeIsLeast(was.observed, given.observed, None); }
  }

  lemma RecordedSettles(was: Reservation, settlement: Settlement)
    requires Recorded(was, settlement).Some?
    ensures Settles(was, was.(settlement := Recorded(was, settlement), observedUsage := Observed(was, settlement)), settlement)
  {
    var seen := Merge(settlement.observedUsage, OutcomeUsage(settlement.outcome));
    MergeIsLeast(was.observedUsage, seen, None);
    MergeIsLeast(settlement.observedUsage, OutcomeUsage(settlement.outcome), None);
    UsageChain(Merge(was.observedUsage, seen), seen, settlement.observedUsage);
    UsageChain(Merge(was.observedUsage, seen), seen, OutcomeUsage(settlement.outcome));
    if was.settlement.Some? { ReconcileReplaces(was.settlement.value.outcome, settlement.outcome); }
  }

  /** A settlement changes its own reservation as `Settles` says, and nothing else of the scope. */
  lemma SettleRecords(s: Scope, settlement: Settlement)
    requires Settle(s, settlement).Ok?
    ensures var t, id := Settle(s, settlement).value, settlement.reservationId;
      && id in s.reservations && t.reservations.Keys == s.reservations.Keys
      && (forall other | other in s.reservations && other != id :: t.reservations[other] == s.reservations[other])
      && t.limits == s.limits && t.deadlineAtMs == s.deadlineAtMs && (t == s || t.version == s.version + 1)
      && Settles(s.reservations[id], t.reservations[id], settlement)
  {
    RecordedSettles(s.reservations[settlement.reservationId], settlement);
    SettleForm(s, settlement);
  }

  lemma SettleForm(s: Scope, settlement: Settlement)
    requires Settle(s, settlement).Ok?
    ensures var t, id := Settle(s, settlement).value, settlement.reservationId;
      && id in s.reservations && t.reservations.Keys == s.reservations.Keys && Recorded(s.reservations[id], settlement).Some?
      && (forall other | other in s.reservations && other != id :: t.reservations[other] == s.reservations[other])
      && t.limits == s.limits && t.deadlineAtMs == s.deadlineAtMs && (t == s || t.version == s.version + 1)
      && t.reservations[id] == s.reservations[id].(settlement := Recorded(s.reservations[id], settlement),
                                                  observedUsage := Observed(s.reservations[id], settlement))
  {
  }

  lemma UsageChain(a: Option<TokenUsage>, b: Option<TokenUsage>, c: Option<TokenUsage>)
    requires RetainsUsage(a, b) && RetainsUsage(b, c)
    ensures RetainsUsage(a, c)
  {
  }

  /** A settlement that contradicts the one on record is refused. */
  lemma ConflictIsRefused(s: Scope, settlement: Settlement)
    requires settlement.reservationId in s.reservations && s.reservations[settlement.reservationId].settlement.Some?
    requires !Follows(s.reservations[settlement.reservationId].settlement.value.outcome, settlement.outcome)
    ensures Settle(s, settlement).Err?
  {
  }

  lemma SettledPieces(existing: Reservation, settlement: Settlement)
    requires Recorded(existing, settlement).Some?
    ensures var recorded := Recorded(existing, settlement).value;
      && RetainsUsage(Observed(existing, settlement), existing.observedUsage)
      && recorded.observedUsage == Observed(existing, settlement)
      && (existing.settlement.Some? ==>
            RetainsOutcome(recorded.outcome, existing.settlement.value.outcome)
            && (existing.settlement.value.physicalRetired ==> recorded.physicalRetired))
  {
    MergeIsLeast(existing.observedUsage, Merge(settlement.observedUsage, OutcomeUsage(settlement.outcome)), None);
  }

  /**
   A settlement retains everything, exactly when the usage its reservation has seen covers what an earlier settlement
   of it recorded.
   */
  lemma SettleKeeps(s: Scope, settlement: Settlement)
    requires Settle(s, settlement).Ok?
    ensures var t, id := Settle(s, settlement).value, settlement.reservationId;
      && ValidScope(t) && t.id == s.id && id in s.reservations
      && (RetainsScope(t, s) <==>
            (s.reservations[id].settlement.Some? ==>
               RetainsUsage(Observed(s.reservations[id], settlement), s.reservations[id].settlement.value.observedUsage)))
  {
    var t, id := Settle(s, settlement).value, settlement.reservationId;
    SettledPieces(s.reservations[id], settlement);
    RetainsScopeReflexive(s);
    if t != s {
      assert t.reservations[id] == s.reservations[id].(settlement := Recorded(s.reservations[id], settlement), observedUsage := Observed(s.reservations[id], settlement));
    }
  }

  /** Scopes that only this code has written meet that condition, and go on meeting it. */
  lemma SettleRetains(s: Scope, settlement: Settlement)
    requires SettledScope(s) && Settle(s, settlement).Ok?
    ensures RetainsScope(Settle(s, settlement).value, s) && SettledScope(Settle(s, settlement).value)
  {
    SettleKeeps(s, settlement);
    var id := settlement.reservationId;
    SettledPieces(s.reservations[id], settlement);
    assert SettledReservation(s.reservations[id]);
  }

  /** A settlement on its own: once recorded, recording it again changes nothing. */
  lemma RecordedTwice(existing: Reservation, settlement: Settlement)
    requires Recorded(existing, settlement).Some?
    ensures var settled := existing.(settlement := Recorded(existing, settlement), observedUsage := Observed(existing, settlement));
      Observed(settled, settlement) == settled.observedUsage && Recorded(settled, settlement) == settled.settlement
  {
    MergeIsLeast(existing.observedUsage, Merge(settlement.observedUsage, OutcomeUsage(settlement.outcome)), None);
    if existing.settlement.Some? && existing.settlement.value.outcome.Unknown? && settlement.outcome.Unknown? {
      MergeIsLeast(existing.settlement.value.outcome.observed, settlement.outcome.observed, None);
    }
    MergeIsLeast(None, OutcomeUsage(settlement.outcome), None);
  }

  /** Repeating a settlement, as a worker does that never saw its receipt, changes nothing, not even the version. */
  lemma SettleTwice(s: Scope, settlement: Settlement)
    requires Settle(s, settlement).Ok?
    ensures Settle(Settle(s, settlement).value, settlement) == Settle(s, settlement)
  {
    var t, id := Settle(s, settlement).value, settlement.reservationId;
    RecordedTwice(s.reservations[id], settlement);
    SettleKeeps(s, settlement);
    assert t == s ==> t.reservations[id] == s.reservations[id];
  }

  /** An input that does not meet the condition: a reservation whose settlement has seen usage that it has not itself. */
  lemma UnseenUsageIsLost(s: Scope, id: string, settlement: Settlement, usage: TokenUsage)
    requires Settle(s, settlement).Ok? && id == settlement.reservationId && id in s.reservations && usage.prompt > 0
    requires s.reservations[id].observedUsage == None
    requires s.reservations[id].settlement == Some(Settlement(id, Unknown(None), true, Some(usage)))
    requires settlement == Settlement(id, Unknown(None), true, None)
    ensures !RetainsScope(Settle(s, settlement).value, s)
  {
    SettleKeeps(s, settlement);
  }

  // ---------------------------------------------------------------- the registry

  ghost predicate SettledRegistry(r: Registry) {
    forall id | id in r.scopes :: SettledScope(r.scopes[id])
  }

  datatype Mutation = Reserving(request: Request) | Settling(settlement: Settlement)

  /** What a run does to its scope; only the run that reserved an operation settles it. */
  function Account(s: Scope, runId: string, m: Mutation, nowMs: nat, allowed: Allowance): Result<Scope> {
    match m
    case Reserving(request) => if request.runId == runId then Reserve(s, request, nowMs, allowed) else Err
    case Settling(settlement) =>
      if settlement.reservationId in s.reservations && s.reservations[settlement.reservationId].request.runId == runId
      then Settle(s, settlement) else Err
  }

  /** What accounting of a run may make of its scope. */
  ghost predicate Accounted(s: Scope, t: Scope, runId: string) {
    && ValidScope(t) && RetainsScope(t, s) && SettledScope(t) && t.id == s.id
    && forall key | key in t.reservations ::
         t.reservations[key].request.runId == runId
         || (key in s.reservations && t.reservations[key].request == s.reservations[key].request)
  }

  lemma AccountKeeps(s: Scope, runId: string, m: Mutation, nowMs: nat, allowed: Allowance)
    requires SettledScope(s) && Account(s, runId, m, nowMs, allowed).Ok?
    ensures Accounted(s, Account(s, runId, m, nowMs, allowed).value, runId)
  {
    match m
    case Reserving(request) => ReserveKeeps(s, request, nowMs, allowed);
    case Settling(settlement) =>
      SettleKeeps(s, settlement);
      SettleRetains(s, settlement);
  }

  /** Only the run that reserved an operation settles it, and a run reserves only for itself. */
  lemma OthersAreRefused(s: Scope, runId: string, m: Mutation, nowMs: nat, allowed: Allowance)
    ensures m.Reserving? && m.request.runId != runId ==> Account(s, runId, m, nowMs, allowed).Err?
    ensures m.Settling? && m.settlement.reservationId !in s.reservations ==> Account(s, runId, m, nowMs, allowed).Err?
    ensures m.Settling? && m.settlement.reservationId in s.reservations && s.reservations[m.settlement.reservationId].request.runId != runId ==>
      Account(s, runId, m, nowMs, allowed).Err?
  {
  }

  /** The registry with one scope replaced. */
  function WithAccount(r: Registry, generation: nat, id: string, t: Scope): Registry {
    Registry(generation, r.scopes[id := t], r.runScopes)
  }

  lemma AccountRequests(r: Registry, id: string, runId: string, t: Scope)
    requires ScopesInPlace(r) && id in r.scopes && Bound(r, runId) == Some(id)
    requires Accounted(r.scopes[id], t, runId)
    ensures RequestsBound(r, id, t.reservations)
  {
    RequestsOf(r, id);
  }

  lemma WithAccountReplaces(r: Registry, generation: nat, id: string, t: Scope)
    requires id in r.scopes && t.id == r.scopes[id].id
    ensures ReplacesScope(r, WithAccount(r, generation, id, t), id) && WithAccount(r, generation, id, t).scopes[id] == t
  {
  }

  lemma AccountedRetains(r: Registry, generation: nat, id: string, runId: string, t: Scope)
    requires Valid(r) && id in r.scopes && Bound(r, runId) == Some(id) && Accounted(r.scopes[id], t, runId)
    ensures Retains(WithAccount(r, generation, id, t), r)
  {
    AccountRequests(r, id, runId, t);
    WithAccountReplaces(r, generation, id, t);
    ReplaceScopeRetains(r, WithAccount(r, generation, id, t), id);
  }

  lemma AccountedSettled(r: Registry, generation: nat, id: string, runId: string, t: Scope)
    requires SettledRegistry(r) && id in r.scopes && Accounted(r.scopes[id], t, runId)
    ensures SettledRegistry(WithAccount(r, generation, id, t))
  {
  }

  // ---------------------------------------------------------------- what every step keeps

  lemma BindingSettled(r: Registry, runId: string, lineage: seq<string>, o: Opening, allowed: Allowance)
    requires SettledRegistry(r) && PrepareBinding(r, runId, lineage, o, allowed).Ok?
    ensures SettledRegistry(PrepareBinding(r, runId, lineage, o, allowed).value.registry)
  {
    BindingForm(r, runId, lineage, o, allowed);
    ExtendSettled(r, runId, lineage, OpenScope(o, runId));
  }

  lemma BindingForm(r: Registry, runId: string, lineage: seq<string>, o: Opening, allowed: Allowance)
    requires PrepareBinding(r, runId, lineage, o, allowed).Ok?
    ensures Extend(r, runId, lineage, OpenScope(o, runId)).Ok?
    ensures PrepareBinding(r, runId, lineage, o, allowed).value.registry == Extend(r, runId, lineage, OpenScope(o, runId)).value.0
    ensures OpenScope(o, runId).Ok? ==> OpenScope(o, runId).value.reservations == map[]
  {
  }

  lemma ExtendSettled(r: Registry, runId: string, lineage: seq<string>, rooted: Result<Scope>)
    requires SettledRegistry(r) && Extend(r, runId, lineage, rooted).Ok?
    requires rooted.Ok? ==> rooted.value.reservations == map[]
    ensures SettledRegistry(Extend(r, runId, lineage, rooted).value.0)
  {
  }

  lemma TightenSettled(c: Candidate, limits: Limits)
    requires SettledRegistry(c.registry) && TightenUnchecked(c, limits).Ok?
    ensures SettledRegistry(TightenUnchecked(c, limits).value.registry)
  {
    TightenUncheckedScope(c, limits);
    assert SettledScope(c.registry.scopes[c.binding.scopeId]);
  }

  lemma {:induction false} OwnersSettled(agents: Agents, c: Candidate, owners: seq<string>)
    requires SettledRegistry(c.registry) && TightenByOwners(agents, c, owners).Ok?
    ensures SettledRegistry(TightenByOwners(agents, c, owners).value.registry)
    decreases |owners|
  {
    if owners != [] {
      if agents[owners[0]].Some? { TightenSettled(c, agents[owners[0]].value); }
      OwnersSettled(agents, TightenByOwner(agents, c, owners[0]).value, owners[1..]);
    }
  }

  /** Admissions leave every scope as this code writes it, so the condition holds of whole runs. */
  lemma AdmissionSettled(host: Host, record: RunRecord, adopted: Opening, o: Opening, allowed: Allowance)
    requires SettledRegistry(host.budgets) && PrepareRun(host, record, adopted, o, allowed).Ok?
    ensures SettledRegistry(PrepareRun(host, record, adopted, o, allowed).value.registry)
  {
    if Adopts(host, record) {
      var source := host.runs[record.recoveryOf.value];
      BindingSettled(host.budgets, source.id, Lineage(source), adopted, allowed);
    }
    var registry := Adopt(host, record, adopted, allowed).value;
    BindingSettled(registry, record.id, Lineage(record), o, allowed);
    var c := Rebase(host.budgets, PrepareBinding(registry, record.id, Lineage(record), o, allowed).value);
    OwnersSettled(host.agents, c, Owners(host, c, record));
  }

  lemma OperationSettled(budgets: Registry, operation: string, limits: Option<Limits>, o: Opening, allowed: Allowance)
    requires SettledRegistry(budgets) && PrepareOperation(budgets, operation, limits, o, allowed).Ok?
    ensures SettledRegistry(PrepareOperation(budgets, operation, limits, o, allowed).value.registry)
  {
    BindingSettled(budgets, operation, [], o, allowed);
    if limits.Some? {
      TightenSettled(PrepareBinding(budgets, operation, [], o, allowed).value, limits.value);
    }
  }

  // ---------------------------------------------------------------- publication

  /** The live registry as a candidate of one bound run, tightened by its owners before anything is reserved. */
  function Refreshed(live: Registry, agents: Agents, owners: seq<string>, id: string, runId: string, m: Mutation): Result<Candidate>
    requires id in live.scopes
  {
    var c := Candidate(live.generation, live, Binding(id, runId, live.scopes[id].deadlineAtMs));
    if m.Reserving? then TightenByOwners(agents, c, owners) else Ok(c)
  }

  /** A candidate for publication, if the run is bound to a scope and its mutation is accepted; None when nothing changed. */
  function PrepareAccount(live: Registry, agents: Agents, owners: seq<string>, runId: string, m: Mutation, nowMs: nat, allowed: Allowance)
    : Result<Option<Candidate>>
  {
    if Bound(live, runId).None? || Bound(live, runId).value !in live.scopes then Err
    else
      var id := Bound(live, runId).value;
      match Refreshed(live, agents, owners, id, runId, m)
      case Err => Err
      case Ok(c) =>
        if id !in c.registry.scopes then Err
        else match Account(c.registry.scopes[id], runId, m, nowMs, allowed)
          case Err => Err
          case Ok(t) =>
            if t.version == live.scopes[id].version then Ok(None)
            else if live.generation + 1 > U64_MAX then Err
            else Ok(Some(Candidate(live.generation, WithAccount(c.registry, live.generation + 1, id, t), Binding(id, runId, t.deadlineAtMs))))
  }

  lemma RefreshedKeeps(live: Registry, agents: Agents, owners: seq<string>, id: string, runId: string, m: Mutation)
    requires Valid(live) && SettledRegistry(live) && id in live.scopes && Refreshed(live, agents, owners, id, runId, m).Ok?
    ensures var c := Refreshed(live, agents, owners, id, runId, m).value;
      Retains(c.registry, live) && SettledRegistry(c.registry) && c.registry.runScopes == live.runScopes
  {
    RetainsReflexive(live);
    if m.Reserving? {
      var c := Candidate(live.generation, live, Binding(id, runId, live.scopes[id].deadlineAtMs));
      TightenByOwnersKeeps(agents, c, owners);
      OwnersSettled(agents, c, owners);
    }
  }

  /** What a run prepares for its scope retains the live registry. */
  lemma AccountRetains(live: Registry, agents: Agents, owners: seq<string>, runId: string, m: Mutation, nowMs: nat, allowed: Allowance)
    requires Valid(live) && SettledRegistry(live)
    requires PrepareAccount(live, agents, owners, runId, m, nowMs, allowed).Ok?
    requires PrepareAccount(live, agents, owners, runId, m, nowMs, allowed).value.Some?
    ensures var c := PrepareAccount(live, agents, owners, runId, m, nowMs, allowed).value.value;
      Retains(c.registry, live) && Bound(c.registry, runId) == Some(c.binding.scopeId) && SettledRegistry(c.registry)
  {
    AccountForm(live, agents, owners, runId, m, nowMs, allowed);
    var id := Bound(live, runId).value;
    RefreshedKeeps(live, agents, owners, id, runId, m);
    StepRetains(live, Refreshed(live, agents, owners, id, runId, m).value.registry, live.generation + 1, id, runId, m, nowMs, allowed);
  }

  lemma AccountForm(live: Registry, agents: Agents, owners: seq<string>, runId: string, m: Mutation, nowMs: nat, allowed: Allowance)
    requires PrepareAccount(live, agents, owners, runId, m, nowMs, allowed).Ok?
    requires PrepareAccount(live, agents, owners, runId, m, nowMs, allowed).value.Some?
    ensures Bound(live, runId).Some? && Bound(live, runId).value in live.scopes
    ensures var id, c := Bound(live, runId).value, PrepareAccount(live, agents, owners, runId, m, nowMs, allowed).value.value;
      var refreshed := Refreshed(live, agents, owners, id, runId, m);
      && refreshed.Ok? && id in refreshed.value.registry.scopes
      && Account(refreshed.value.registry.scopes[id], runId, m, nowMs, allowed).Ok?
      && c.registry == WithAccount(refreshed.value.registry, live.generation + 1, id,
                                   Account(refreshed.value.registry.scopes[id], runId, m, nowMs, allowed).value)
      && c.binding.scopeId == id && c.binding.runId == runId && c.expectedGeneration == live.generation
  {
  }

  lemma StepRetains(live: Registry, r: Registry, generation: nat, id: string, runId: string, m: Mutation, nowMs: nat, allowed: Allowance)
    requires Retains(r, live) && SettledRegistry(r) && id in r.scopes && Bound(r, runId) == Some(id)
    requires Account(r.scopes[id], runId, m, nowMs, allowed).Ok?
    ensures var next := WithAccount(r, generation, id, Account(r.scopes[id], runId, m, nowMs, allowed).value);
      Retains(next, live) && SettledRegistry(next)
  {
    var t := Account(r.scopes[id], runId, m, nowMs, allowed).value;
    assert SettledScope(r.scopes[id]);
    AccountKeeps(r.scopes[id], runId, m, nowMs, allowed);
    AccountedRetains(r, generation, id, runId, t);
    AccountedSettled(r, generation, id, runId, t);
    RetainsTransitive(WithAccount(r, generation, id, t), r, live);
  }

  /** A reservation is made under the limits its owners have now. */
  lemma ReservationGoverned(live: Registry, agents: Agents, owners: seq<string>, runId: string, request: Request, nowMs: nat, allowed: Allowance)
    requires Valid(live) && PrepareAccount(live, agents, owners, runId, Reserving(request), nowMs, allowed).Ok?
    requires PrepareAccount(live, agents, owners, runId, Reserving(request), nowMs, allowed).value.Some?
    ensures var c := PrepareAccount(live, agents, owners, runId, Reserving(request), nowMs, allowed).value.value;
      && c.binding.scopeId in c.registry.scopes && request.id in c.registry.scopes[c.binding.scopeId].reservations
      && forall o | o in owners ::
           o in agents && (agents[o].Some? ==> Within(c.registry.scopes[c.binding.scopeId].limits, agents[o].value))
  {
    AccountForm(live, agents, owners, runId, Reserving(request), nowMs, allowed);
    var id := Bound(live, runId).value;
    var start := Candidate(live.generation, live, Binding(id, runId, live.scopes[id].deadlineAtMs));
    OwnersLimit(agents, start, owners);
    var s := TightenByOwners(agents, start, owners).value.registry.scopes[id];
    ReserveKeepsLimits(s, request, nowMs, allowed);
  }

  lemma ReserveKeepsLimits(s: Scope, request: Request, nowMs: nat, allowed: Allowance)
    requires Reserve(s, request, nowMs, allowed).Ok?
    ensures Reserve(s, request, nowMs, allowed).value.limits == s.limits
    ensures request.id in Reserve(s, request, nowMs, allowed).value.reservations
  {
  }

  lemma AccountIsPublishable(live: Registry, agents: Agents, owners: seq<string>, runId: string, m: Mutation, nowMs: nat, allowed: Allowance)
    requires Valid(live) && SettledRegistry(live)
    requires PrepareAccount(live, agents, owners, runId, m, nowMs, allowed).Ok?
    requires PrepareAccount(live, agents, owners, runId, m, nowMs, allowed).value.Some?
    ensures Publishable(PrepareAccount(live, agents, owners, runId, m, nowMs, allowed).value.value, live, {})
  {
    AccountRetains(live, agents, owners, runId, m, nowMs, allowed);
  }

  /** Reserving or settling, prepared from the live registry and published: no evidence is lost, whatever becomes of the write. */
  method RecordUsage(b: BudgetState<Registry>, agents: Agents, owners: seq<string>, runId: string, m: Mutation, nowMs: nat, allowed: Allowance)
    returns (prepared: Result<Option<Candidate>>, saved: bool)
    requires b.Valid() && b.evidence == REGISTRY && SettledRegistry(b.live)
    modifies b
    ensures prepared == PrepareAccount(old(b.live), agents, owners, runId, m, nowMs, allowed)
    ensures b.Valid() && Retains(b.live, old(b.live)) && Retains(b.live, b.durable) && SettledRegistry(b.live)
    ensures prepared.Err? || prepared.value.None? ==> !saved && unchanged(b)
    ensures prepared.Ok? && prepared.value.Some? ==> b.live == prepared.value.value.registry
    ensures saved ==> b.durable == b.live
  {
    prepared := PrepareAccount(b.live, agents, owners, runId, m, nowMs, allowed);
    var candidate := if prepared.Ok? && prepared.value.Some? then Ok(prepared.value.value) else Err;
    if candidate.Ok? {
      AccountIsPublishable(b.live, agents, owners, runId, m, nowMs, allowed);
      AccountRetains(b.live, agents, owners, runId, m, nowMs, allowed);
    }
    saved := PublishPrepared(b, candidate, {});
  }
}
