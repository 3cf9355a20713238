/**
 Admitting a run against the shared budgets: tightening by the owners' limits, adopting a legacy source,
 and publishing the candidate whatever becomes of the write.
 */
module BudgetAdmission {
  import opened Wrappers
  import opened ExecutionLimits
  import opened BudgetRegistry

  // ---------------------------------------------------------------- tightening

  /** The scope under the intersected limits; the version moves exactly when something changed. */
  function TightenScope(s: Scope, limits: Limits): Result<Scope> {
    if Intersect(s.limits, limits).Err? then Err
    else
      var meet := Intersect(s.limits, limits).value;
      var latest := s.createdAtMs + meet.budget[WallTimeMs];
      var next := s.(limits := meet, deadlineAtMs := Min(s.deadlineAtMs, latest));
      if latest > U64_MAX then Err
      else if next == s then Ok(s)
      else if s.version + 1 > U64_MAX then Err
      else Ok(next.(version := s.version + 1))
  }

  /** The candidate with its scope replaced, before it is validated again. */
  function TightenUnchecked(c: Candidate, limits: Limits): Result<Candidate> {
    if c.binding.scopeId !in c.registry.scopes then Err
    else
      var scope := c.registry.scopes[c.binding.scopeId];
      match TightenScope(scope, limits)
      case Err => Err
      case Ok(next) =>
        if next == scope then Ok(c)
        else if c.expectedGeneration + 1 > U64_MAX then Err
        else Ok(WithScope(c, next))
  }

  function WithScope(c: Candidate, next: Scope): Candidate {
    Candidate(c.expectedGeneration,
              Registry(c.expectedGeneration + 1, c.registry.scopes[c.binding.scopeId := next], c.registry.runScopes),
              c.binding.(deadlineAtMs := next.deadlineAtMs))
  }

  function TightenCandidate(c: Candidate, limits: Limits): Result<Candidate> {
    var next := TightenUnchecked(c, limits);
    if next.Err? || !Valid(next.value.registry) then Err else next
  }

  /** Tightening never loosens a scope, keeps it valid, and has a closed form. */
  lemma TightenScopeKeeps(s: Scope, limits: Limits)
    requires ValidScope(s) && TightenScope(s, limits).Ok?
    ensures var t := TightenScope(s, limits).value;
      && ValidScope(t) && RetainsScope(t, s)
      && t.limits == Meet(s.limits, limits) && Within(t.limits, limits)
      && t.deadlineAtMs == Min(s.deadlineAtMs, s.createdAtMs + t.limits.budget[WallTimeMs])
      && t.id == s.id && t.reservations == s.reservations
      && t.version == s.version + (if t.limits == s.limits && t.deadlineAtMs == s.deadlineAtMs then 0 else 1)
  {
    MeetIsGreatest(s.limits, limits, s.limits);
    TightenedScopeOk(s, TightenScope(s, limits).value);
  }

  /** A scope with tighter limits and an earlier deadline is valid and retains the old one. */
  lemma TightenedScopeOk(s: Scope, t: Scope)
    requires ValidScope(s) && ValidLimits(t.limits) && Within(t.limits, s.limits) && s.version <= t.version
    requires t == s.(limits := t.limits, deadlineAtMs := t.deadlineAtMs, version := t.version)
    requires t.deadlineAtMs == Min(s.deadlineAtMs, s.createdAtMs + t.limits.budget[WallTimeMs])
    ensures ValidScope(t) && RetainsScope(t, s)
  {
    RetainsScopeReflexive(s);
  }

  /** On a valid scope tightening fails only on invalid limits or an exhausted version. */
  lemma TightenScopeSucceeds(s: Scope, limits: Limits)
    requires ValidScope(s)
    ensures ValidLimits(limits) && s.version < U64_MAX ==> TightenScope(s, limits).Ok?
    ensures !ValidLimits(limits) ==> TightenScope(s, limits).Err?
  {
    MeetIsGreatest(s.limits, limits, s.limits);
    IntersectSucceeds(s.limits, limits);
  }

  /** Repeating the same limits changes nothing, not even the version. */
  lemma TightenScopeIdempotent(s: Scope, limits: Limits)
    requires ValidScope(s) && TightenScope(s, limits).Ok?
    ensures TightenScope(TightenScope(s, limits).value, limits) == TightenScope(s, limits)
  {
    TightenScopeKeeps(s, limits);
    MeetAbsorbs(TightenScope(s, limits).value.limits, limits);
  }

  /** `next` differs from `r` only in the contents of one scope, which kept its identity. */
  predicate ReplacesScope(r: Registry, next: Registry, id: string) {
    && id in r.scopes && next.runScopes == r.runScopes && next.scopes.Keys == r.scopes.Keys
    && (forall i | i in r.scopes && i != id :: next.scopes[i] == r.scopes[i])
    && next.scopes[id].id == r.scopes[id].id
  }

  /** Every reservation belongs to a run bound to the scope. */
  ghost predicate RequestsBound(r: Registry, id: string, reservations: map<string, Reservation>) {
    forall key | key in reservations :: Bound(r, reservations[key].request.runId) == Some(id)
  }

  lemma RequestsOf(r: Registry, id: string)
    requires ScopesInPlace(r) && id in r.scopes
    ensures RequestsBound(r, id, r.scopes[id].reservations)
  {
    assert ScopeInPlace(r, id);
  }

  lemma ReplacedInPlace(r: Registry, next: Registry, id: string)
    requires ScopesInPlace(r) && ReplacesScope(r, next, id) && next.scopes[id].rootRunId == r.scopes[id].rootRunId
    requires ValidScope(next.scopes[id]) && RequestsBound(r, id, next.scopes[id].reservations)
    ensures ScopesInPlace(next)
  {
    StayInPlace(r, next, r.scopes.Keys - {id});
    assert ScopeInPlace(r, id);
    assert ScopeInPlace(next, id);
  }

  lemma ReplacedKept(r: Registry, next: Registry, id: string)
    requires ReplacesScope(r, next, id) && RetainsScope(next.scopes[id], r.scopes[id])
    ensures KeepsScopes(next, r) && KeepsBindings(next, r)
  {
    forall i | i in r.scopes
      ensures RetainsScope(next.scopes[i], r.scopes[i])
    {
      if i != id {
        RetainsScopeReflexive(r.scopes[i]);
      }
    }
  }

  lemma ReplacedBindings(r: Registry, next: Registry, id: string)
    requires BindingsInPlace(r) && WithinCapacity(r) && ReplacesScope(r, next, id)
    ensures BindingsInPlace(next) && WithinCapacity(next)
  {
    assert |next.scopes.Keys| == |r.scopes.Keys|;
  }

  /** Replacing one scope by one that retains it keeps the registry valid and loses nothing. */
  lemma ReplaceScopeRetains(r: Registry, next: Registry, id: string)
    requires Valid(r) && ReplacesScope(r, next, id)
    requires ValidScope(next.scopes[id]) && RetainsScope(next.scopes[id], r.scopes[id])
    requires RequestsBound(r, id, next.scopes[id].reservations)
    ensures Retains(next, r)
  {
    ReplacedInPlace(r, next, id);
    ReplacedKept(r, next, id);
    ReplacedBindings(r, next, id);
  }

  /** What a candidate may become by tightening. */
  predicate Tightened(t: Candidate, c: Candidate) {
    && Retains(t.registry, c.registry)
    && t.registry.runScopes == c.registry.runScopes
    && t.registry.scopes.Keys == c.registry.scopes.Keys
    && t.expectedGeneration == c.expectedGeneration
    && t.binding.scopeId == c.binding.scopeId && t.binding.runId == c.binding.runId
    && (t.registry == c.registry || t.registry.generation == c.expectedGeneration + 1)
  }

  /** The scope of a tightened candidate is the tightened scope. */
  lemma TightenUncheckedScope(c: Candidate, limits: Limits)
    requires TightenUnchecked(c, limits).Ok?
    ensures var t, id := TightenUnchecked(c, limits).value, c.binding.scopeId;
      && id in c.registry.scopes && id in t.registry.scopes && t.binding.scopeId == id
      && TightenScope(c.registry.scopes[id], limits) == Ok(t.registry.scopes[id])
      && (t == c || t == WithScope(c, t.registry.scopes[id]))
  {
  }

  lemma WithScopeReplaces(c: Candidate, next: Scope)
    requires c.binding.scopeId in c.registry.scopes
    requires next.id == c.registry.scopes[c.binding.scopeId].id
    ensures ReplacesScope(c.registry, WithScope(c, next).registry, c.binding.scopeId)
  {
  }

  lemma TightenCandidateKeeps(c: Candidate, limits: Limits)
    requires Valid(c.registry) && TightenUnchecked(c, limits).Ok?
    ensures Tightened(TightenUnchecked(c, limits).value, c)
  {
    var id := c.binding.scopeId;
    var t := TightenUnchecked(c, limits).value;
    TightenUncheckedScope(c, limits);
    if t == c {
      RetainsReflexive(c.registry);
    } else {
      var next := t.registry.scopes[id];
      ValidScopeOf(c.registry, id);
      TightenScopeKeeps(c.registry.scopes[id], limits);
      WithScopeReplaces(c, next);
      RequestsOf(c.registry, id);
      ReplaceScopeRetains(c.registry, t.registry, id);
    }
  }

  lemma ValidScopeOf(r: Registry, id: string)
    requires Valid(r) && id in r.scopes
    ensures ValidScope(r.scopes[id])
  {
    assert ScopeInPlace(r, id);
  }

  /** Re-validating a tightened candidate never fails. */
  lemma TightenCandidateSucceeds(c: Candidate, limits: Limits)
    requires Valid(c.registry)
    ensures TightenCandidate(c, limits) == TightenUnchecked(c, limits)
  {
    if TightenUnchecked(c, limits).Ok? {
      TightenCandidateKeeps(c, limits);
    }
  }

  lemma TightenedTransitive(a: Candidate, b: Candidate, c: Candidate)
    requires Tightened(a, b) && Tightened(b, c)
    ensures Tightened(a, c)
  {
    RetainsTransitive(a.registry, b.registry, c.registry);
  }

  // ---------------------------------------------------------------- owners

  /** An agent's configured limits, if any. */
  type Agents = map<string, Option<Limits>>

  function TightenByOwner(agents: Agents, c: Candidate, owner: string): Result<Candidate> {
    if owner !in agents then Err
    else match agents[owner]
      case None => Ok(c)
      case Some(limits) => TightenCandidate(c, limits)
  }

  function TightenByOwners(agents: Agents, c: Candidate, owners: seq<string>): Result<Candidate>
    decreases |owners|
  {
    if owners == [] then Ok(c)
    else match TightenByOwner(agents, c, owners[0])
      case Err => Err
      case Ok(next) => TightenByOwners(agents, next, owners[1..])
  }

  /** Applies the configured limits of each owner in turn. */
  method RefreshOwnerLimits(agents: Agents, candidate: Candidate, owners: seq<string>) returns (r: Result<Candidate>)
    ensures r == TightenByOwners(agents, candidate, owners)
  {
    var current := candidate;
    var i := 0;
    assert owners[0..] == owners;
    while i < |owners|
      invariant 0 <= i <= |owners|
      invariant TightenByOwners(agents, current, owners[i..]) == TightenByOwners(agents, candidate, owners)
    {
      assert owners[i..][0] == owners[i] && owners[i..][1..] == owners[i + 1..];
      var next := TightenByOwner(agents, current, owners[i]);
      if next.Err? {
        return Err;
      }
      current := next.value;
      i := i + 1;
    }
    r := Ok(current);
  }

  lemma {:induction false} TightenByOwnersKeeps(agents: Agents, c: Candidate, owners: seq<string>)
    requires Valid(c.registry) && TightenByOwners(agents, c, owners).Ok?
    ensures Tightened(TightenByOwners(agents, c, owners).value, c)
    decreases |owners|
  {
    RetainsReflexive(c.registry);
    if owners != [] {
      var next := TightenByOwner(agents, c, owners[0]).value;
      if agents[owners[0]].Some? {
        TightenCandidateKeeps(c, agents[owners[0]].value);
      }
      TightenByOwnersKeeps(agents, next, owners[1..]);
      TightenedTransitive(TightenByOwners(agents, c, owners).value, next, c);
    }
  }

  /** The limits the owners configured, in order. */
  function Configured(agents: Agents, owners: seq<string>): seq<Limits>
    decreases |owners|
  {
    if owners == [] then []
    else (if owners[0] in agents && agents[owners[0]].Some? then [agents[owners[0]].value] else []) + Configured(agents, owners[1..])
  }

  lemma {:induction false} ConfiguredElements(agents: Agents, owners: seq<string>, x: Limits)
    ensures x in Configured(agents, owners) <==> exists o | o in owners :: o in agents && agents[o] == Some(x)
    decreases |owners|
  {
    if owners != [] {
      ConfiguredElements(agents, owners[1..], x);
      assert forall o :: o in owners <==> o == owners[0] || o in owners[1..];
    }
  }

  function TightenScopeAll(s: Scope, limits: seq<Limits>): Result<Scope>
    decreases |limits|
  {
    if limits == [] then Ok(s)
    else match TightenScope(s, limits[0])
      case Err => Err
      case Ok(next) => TightenScopeAll(next, limits[1..])
  }

  lemma {:induction false} TightenScopeAllLimits(s: Scope, limits: seq<Limits>)
    requires ValidScope(s) && TightenScopeAll(s, limits).Ok?
    ensures ValidScope(TightenScopeAll(s, limits).value)
    ensures TightenScopeAll(s, limits).value.limits == MeetAll(s.limits, limits)
    ensures TightenScopeAll(s, limits).value.createdAtMs == s.createdAtMs
    decreases |limits|
  {
    if limits != [] {
      TightenScopeKeeps(s, limits[0]);
      TightenScopeAllLimits(TightenScope(s, limits[0]).value, limits[1..]);
    }
  }

  function Deadline(s: Scope, limits: Limits): nat
    requires WallTimeMs in limits.budget
  {
    Min(s.deadlineAtMs, s.createdAtMs + limits.budget[WallTimeMs])
  }

  /** Only the last, tightest wall time counts. */
  lemma DeadlineFolds(s: Scope, next: Scope, last: Limits)
    requires WallTimeMs in next.limits.budget && Within(last, next.limits)
    requires next.createdAtMs == s.createdAtMs && next.deadlineAtMs == Deadline(s, next.limits)
    ensures WallTimeMs in last.budget && Deadline(next, last) == Deadline(s, last)
  {
  }

  /** However many limits apply, the scope ends under their meet and the earliest deadline. */
  lemma {:induction false} TightenScopeAllMeets(s: Scope, limits: seq<Limits>)
    requires ValidScope(s) && TightenScopeAll(s, limits).Ok?
    ensures var t := TightenScopeAll(s, limits).value;
      t.limits == MeetAll(s.limits, limits) && WallTimeMs in t.limits.budget && t.deadlineAtMs == Deadline(s, t.limits)
    decreases |limits|
  {
    TightenScopeAllLimits(s, limits);
    if limits != [] {
      var next := TightenScope(s, limits[0]).value;
      TightenScopeKeeps(s, limits[0]);
      TightenScopeAllMeets(next, limits[1..]);
      MeetAllIsGreatest(next.limits, limits[1..], next.limits);
      DeadlineFolds(s, next, MeetAll(next.limits, limits[1..]));
    }
  }

  lemma ScopeOrderFree(s: Scope, xs: seq<Limits>, ys: seq<Limits>)
    requires ValidScope(s) && TightenScopeAll(s, xs).Ok? && TightenScopeAll(s, ys).Ok?
    requires forall x :: x in xs <==> x in ys
    ensures TightenScopeAll(s, xs).value.limits == TightenScopeAll(s, ys).value.limits
    ensures TightenScopeAll(s, xs).value.deadlineAtMs == TightenScopeAll(s, ys).value.deadlineAtMs
  {
    TightenScopeAllMeets(s, xs);
    TightenScopeAllMeets(s, ys);
    MeetAllOrderFree(s.limits, xs, ys);
  }

  /** Applying owners to a candidate applies their limits to its scope. */
  lemma {:induction false} OwnersTightenTheScope(agents: Agents, c: Candidate, owners: seq<string>)
    requires c.binding.scopeId in c.registry.scopes && TightenByOwners(agents, c, owners).Ok?
    ensures var t := TightenByOwners(agents, c, owners).value;
      && c.binding.scopeId in t.registry.scopes
      && TightenScopeAll(c.registry.scopes[c.binding.scopeId], Configured(agents, owners))
         == Ok(t.registry.scopes[c.binding.scopeId])
    decreases |owners|
  {
    if owners != [] {
      var next := TightenByOwner(agents, c, owners[0]).value;
      if agents[owners[0]].Some? {
        TightenUncheckedScope(c, agents[owners[0]].value);
        assert Configured(agents, owners)[1..] == Configured(agents, owners[1..]);
      } else {
        assert Configured(agents, owners) == Configured(agents, owners[1..]);
      }
      OwnersTightenTheScope(agents, next, owners[1..]);
    }
  }

  /** Every owner whose limits apply exists, and the scope ends within the limits of each. */
  lemma OwnersLimit(agents: Agents, c: Candidate, owners: seq<string>)
    requires Valid(c.registry) && c.binding.scopeId in c.registry.scopes && TightenByOwners(agents, c, owners).Ok?
    ensures var t := TightenByOwners(agents, c, owners).value;
      && t.binding.scopeId == c.binding.scopeId && c.binding.scopeId in t.registry.scopes
      && forall o | o in owners :: o in agents && (agents[o].Some? ==> Within(t.registry.scopes[c.binding.scopeId].limits, agents[o].value))
  {
    var id, t := c.binding.scopeId, TightenByOwners(agents, c, owners).value;
    TightenByOwnersKeeps(agents, c, owners);
    OwnersTightenTheScope(agents, c, owners);
    OwnersKnown(agents, c, owners);
    ScopeLimited(c.registry, id, Configured(agents, owners));
    forall o | o in owners && agents[o].Some?
      ensures Within(t.registry.scopes[id].limits, agents[o].value)
    {
      ConfiguredElements(agents, owners, agents[o].value);
    }
  }

  lemma ScopeLimited(r: Registry, id: string, limits: seq<Limits>)
    requires Valid(r) && id in r.scopes && TightenScopeAll(r.scopes[id], limits).Ok?
    ensures forall x | x in limits :: Within(TightenScopeAll(r.scopes[id], limits).value.limits, x)
  {
    var s := r.scopes[id];
    ValidScopeOf(r, id);
    TightenScopeAllMeets(s, limits);
    MeetAllIsGreatest(s.limits, limits, s.limits);
  }

  lemma {:induction false} OwnersKnown(agents: Agents, c: Candidate, owners: seq<string>)
    requires TightenByOwners(agents, c, owners).Ok?
    ensures forall o | o in owners :: o in agents
    decreases |owners|
  {
    if owners != [] {
      OwnersKnown(agents, TightenByOwner(agents, c, owners[0]).value, owners[1..]);
      assert forall o :: o in owners <==> o == owners[0] || o in owners[1..];
    }
  }

  /** Tightening does not change which run opened the scope. */
  lemma OwnersKeepRoot(agents: Agents, c: Candidate, owners: seq<string>)
    requires Valid(c.registry) && c.binding.scopeId in c.registry.scopes && TightenByOwners(agents, c, owners).Ok?
    ensures var t := TightenByOwners(agents, c, owners).value;
      c.binding.scopeId in t.registry.scopes
      && t.registry.scopes[c.binding.scopeId].rootRunId == c.registry.scopes[c.binding.scopeId].rootRunId
  {
    TightenByOwnersKeeps(agents, c, owners);
    var t := TightenByOwners(agents, c, owners).value;
    assert RetainsScope(t.registry.scopes[c.binding.scopeId], c.registry.scopes[c.binding.scopeId]);
  }

  /** The order in which owners apply does not affect the resulting limits and deadline. */
  lemma OwnerOrderIsImmaterial(agents: Agents, c: Candidate, xs: seq<string>, ys: seq<string>)
    requires Valid(c.registry) && c.binding.scopeId in c.registry.scopes
    requires forall x :: x in xs <==> x in ys
    requires TightenByOwners(agents, c, xs).Ok? && TightenByOwners(agents, c, ys).Ok?
    ensures var a, b := TightenByOwners(agents, c, xs).value.registry.scopes, TightenByOwners(agents, c, ys).value.registry.scopes;
      var id := c.binding.scopeId;
      id in a && id in b && a[id].limits == b[id].limits && a[id].deadlineAtMs == b[id].deadlineAtMs
  {
    OwnersTightenTheScope(agents, c, xs);
    OwnersTightenTheScope(agents, c, ys);
    var scope := c.registry.scopes[c.binding.scopeId];
    ValidScopeOf(c.registry, c.binding.scopeId);
    forall x
      ensures x in Configured(agents, xs) <==> x in Configured(agents, ys)
    {
      ConfiguredElements(agents, xs, x);
      ConfiguredElements(agents, ys, x);
    }
    ScopeOrderFree(scope, Configured(agents, xs), Configured(agents, ys));
  }

  // ---------------------------------------------------------------- success and versions

  /** The owner exists and its limits, if it has any, are valid. */
  predicate Usable(agents: Agents, owner: string) {
    owner in agents && (agents[owner].Some? ==> ValidLimits(agents[owner].value))
  }

  /** Room for so many more versions of the scope and one more generation. */
  predicate Headroom(c: Candidate, steps: nat) {
    && c.binding.scopeId in c.registry.scopes
    && c.registry.scopes[c.binding.scopeId].version + steps <= U64_MAX
    && c.expectedGeneration < U64_MAX
  }

  /** One step on a scope with a version to spare. */
  lemma StepApplies(s: Scope, limits: Limits)
    requires ValidScope(s) && s.version < U64_MAX
    ensures TightenScope(s, limits).Ok? <==> ValidLimits(limits)
    ensures TightenScope(s, limits).Ok? ==>
      ValidScope(TightenScope(s, limits).value) && TightenScope(s, limits).value.version <= s.version + 1
  {
    TightenScopeSucceeds(s, limits);
    if TightenScope(s, limits).Ok? { TightenScopeKeeps(s, limits); }
  }

  /** Limits are refused exactly when they are invalid. */
  lemma LimitsSucceed(c: Candidate, limits: Limits, steps: nat)
    requires Valid(c.registry) && Headroom(c, steps + 1)
    ensures TightenUnchecked(c, limits).Ok? <==> ValidLimits(limits)
    ensures TightenUnchecked(c, limits).Ok? ==> Headroom(TightenUnchecked(c, limits).value, steps)
  {
    ValidScopeOf(c.registry, c.binding.scopeId);
    StepApplies(c.registry.scopes[c.binding.scopeId], limits);
    if TightenUnchecked(c, limits).Ok? { TightenUncheckedScope(c, limits); }
  }

  lemma CandidateSucceeds(c: Candidate, limits: Limits, steps: nat)
    requires Valid(c.registry) && Headroom(c, steps + 1)
    ensures TightenCandidate(c, limits).Ok? <==> ValidLimits(limits)
    ensures TightenCandidate(c, limits).Ok? ==> Headroom(TightenCandidate(c, limits).value, steps)
  {
    LimitsSucceed(c, limits, steps);
    TightenCandidateSucceeds(c, limits);
  }

  /** One owner: refused exactly when it is unknown or its limits are invalid. */
  lemma OwnerSucceeds(agents: Agents, c: Candidate, owner: string, steps: nat)
    requires Valid(c.registry) && Headroom(c, steps + 1)
    ensures TightenByOwner(agents, c, owner).Ok? <==> Usable(agents, owner)
    ensures TightenByOwner(agents, c, owner).Ok? ==> Headroom(TightenByOwner(agents, c, owner).value, steps)
  {
    if owner in agents {
      match agents[owner]
      case None =>
        assert TightenByOwner(agents, c, owner) == Ok(c);
      case Some(limits) =>
        assert TightenByOwner(agents, c, owner) == TightenCandidate(c, limits);
        CandidateSucceeds(c, limits, steps);
    }
  }

  lemma OwnerKeepsValid(agents: Agents, c: Candidate, owner: string)
    requires Valid(c.registry) && TightenByOwner(agents, c, owner).Ok?
    ensures Valid(TightenByOwner(agents, c, owner).value.registry)
  {
  }

  /** With room for their versions, the owners' limits apply exactly when every owner is known and its limits valid. */
  lemma {:induction false} OwnersSucceed(agents: Agents, c: Candidate, owners: seq<string>)
    requires Valid(c.registry) && Headroom(c, |owners|)
    ensures TightenByOwners(agents, c, owners).Ok? <==> forall o | o in owners :: Usable(agents, o)
    decreases |owners|
  {
    if owners != [] {
      OwnerSucceeds(agents, c, owners[0], |owners| - 1);
      assert forall o :: o in owners <==> o == owners[0] || o in owners[1..];
      if Usable(agents, owners[0]) {
        OwnerKeepsValid(agents, c, owners[0]);
        OwnersSucceed(agents, TightenByOwner(agents, c, owners[0]).value, owners[1..]);
      }
    }
  }

  /** So success does not depend on the order either. */
  lemma OwnerSuccessIsOrderFree(agents: Agents, c: Candidate, xs: seq<string>, ys: seq<string>)
    requires Valid(c.registry) && Headroom(c, |xs|) && Headroom(c, |ys|)
    requires forall x :: x in xs <==> x in ys
    ensures TightenByOwners(agents, c, xs).Ok? <==> TightenByOwners(agents, c, ys).Ok?
  {
    OwnersSucceed(agents, c, xs);
    OwnersSucceed(agents, c, ys);
  }

  /** The version counts the limits that restrict the scope further. */
  lemma TightenScopeVersion(s: Scope, limits: Limits)
    requires ValidScope(s) && TightenScope(s, limits).Ok?
    ensures TightenScope(s, limits).value.version == s.version + (if Within(s.limits, limits) then 0 else 1)
  {
    TightenScopeKeeps(s, limits);
    if Within(s.limits, limits) { MeetAbsorbs(s.limits, limits); }
  }

  lemma TwoVersions(s: Scope, x: Limits, y: Limits)
    requires ValidScope(s) && TightenScopeAll(s, [x, y]).Ok?
    ensures TightenScopeAll(s, [x, y]).value.version ==
              s.version + (if Within(s.limits, x) then 0 else 1) + (if Within(Meet(s.limits, x), y) then 0 else 1)
  {
    assert [x, y][1..] == [y] && [y][1..] == [];
    var next := TightenScope(s, x).value;
    TightenScopeKeeps(s, x);
    TightenScopeVersion(s, x);
    TightenScopeVersion(next, y);
    assert TightenScopeAll(next, [y]) == TightenScope(next, y);
  }

  /**
   Two owners give a scope the same version in both orders, unless both restrict it and exactly one of them, once
   applied, leaves nothing for the other to restrict.
   */
  lemma VersionsAgree(s: Scope, x: Limits, y: Limits)
    requires ValidScope(s) && TightenScopeAll(s, [x, y]).Ok? && TightenScopeAll(s, [y, x]).Ok?
    ensures TightenScopeAll(s, [x, y]).value.version == TightenScopeAll(s, [y, x]).value.version <==>
      Within(s.limits, x) || Within(s.limits, y) || (Within(Meet(s.limits, x), y) <==> Within(Meet(s.limits, y), x))
  {
    TwoVersions(s, x, y);
    TwoVersions(s, y, x);
    MeetIsGreatest(s.limits, x, s.limits);
    MeetIsGreatest(s.limits, y, s.limits);
    if Within(s.limits, x) {
      MeetAbsorbs(s.limits, x);
      WithinTransitive(Meet(s.limits, y), s.limits, x);
    }
    if Within(s.limits, y) {
      MeetAbsorbs(s.limits, y);
      WithinTransitive(Meet(s.limits, x), s.limits, y);
    }
  }

  /** An input on which they differ: one owner allows one tool call less than the scope, the other two less. */
  lemma OrderChangesVersion(s: Scope)
    requires ValidScope(s) && s.limits.toolCalls >= 2 && s.version + 2 <= U64_MAX
    ensures var x, y := s.limits.(toolCalls := s.limits.toolCalls - 1), s.limits.(toolCalls := s.limits.toolCalls - 2);
      && TightenScopeAll(s, [x, y]).Ok? && TightenScopeAll(s, [x, y]).value.version == s.version + 2
      && TightenScopeAll(s, [y, x]).Ok? && TightenScopeAll(s, [y, x]).value.version == s.version + 1
  {
    var x, y := s.limits.(toolCalls := s.limits.toolCalls - 1), s.limits.(toolCalls := s.limits.toolCalls - 2);
    BothApply(s, x, y);
    BothApply(s, y, x);
    MeetAbsorbs(x, s.limits);
    MeetAbsorbs(y, s.limits);
    MeetCommutes(s.limits, x);
    MeetCommutes(s.limits, y);
    TwoVersions(s, x, y);
    TwoVersions(s, y, x);
  }

  lemma BothApply(s: Scope, x: Limits, y: Limits)
    requires ValidScope(s) && ValidLimits(x) && ValidLimits(y) && s.version + 2 <= U64_MAX
    ensures TightenScopeAll(s, [x, y]).Ok?
  {
    assert [x, y][1..] == [y] && [y][1..] == [];
    StepApplies(s, x);
    var next := TightenScope(s, x).value;
    StepApplies(next, y);
    assert TightenScopeAll(next, [y]) == TightenScope(next, y);
  }
}
