/**
 The host's registry of shared execution accounting: which registries are valid, when one keeps all the
 evidence of another, and how a run is bound to the scope of its lineage.
 */
module BudgetRegistry {
  import opened Wrappers
  import opened VaultText
  import opened ExecutionLimits

  const MAX_SCOPES: nat := 8192
  const MAX_BINDINGS: nat := 65536

  datatype TokenUsage = TokenUsage(prompt: nat, completion: nat, total: nat, cachedPrompt: nat, reasoning: nat)

  const NO_USAGE: TokenUsage := TokenUsage(0, 0, 0, 0, 0)

  datatype Operation = ModelAttempt | Tool

  datatype Request = Request(
    id: string, runId: string, logicalCallId: string, operation: Operation, inputTokens: nat, outputTokens: nat)

  datatype Outcome = Known(usage: TokenUsage) | Unknown(observed: Option<TokenUsage>) | ProvenNeverSent

  datatype Settlement = Settlement(
    reservationId: string, outcome: Outcome, physicalRetired: bool, observedUsage: Option<TokenUsage>)

  datatype Reservation = Reservation(
    request: Request, settlement: Option<Settlement>, observedUsage: Option<TokenUsage>)

  datatype Scope = Scope(
    id: string, rootRunId: string, limits: Limits, createdAtMs: nat, deadlineAtMs: nat,
    reservations: map<string, Reservation>, version: nat)

  datatype Registry = Registry(generation: nat, scopes: map<string, Scope>, runScopes: map<string, string>)

  // ---------------------------------------------------------------- validity

  predicate IsWhitespace(c: char) {
    var n := c as int;
    9 <= n <= 13 || n == 32 || n == 0x85 || n == 0xA0 || n == 0x1680 || 0x2000 <= n <= 0x200A
    || n == 0x2028 || n == 0x2029 || n == 0x202F || n == 0x205F || n == 0x3000
  }

  predicate IsControl(c: char) {
    c as int < 0x20 || 0x7F <= c as int <= 0x9F
  }

  predicate Blank(s: string) {
    s == "" || (IsWhitespace(s[0]) && Blank(s[1..]))
  }

  predicate HasControl(s: string) {
    s != "" && (IsControl(s[0]) || HasControl(s[1..]))
  }

  predicate ValidIdentity(id: string) {
    !Blank(id) && Utf8Len(id) <= 256 && !HasControl(id)
  }

  predicate ValidRequest(r: Request) {
    && ValidIdentity(r.id) && ValidIdentity(r.runId) && ValidIdentity(r.logicalCallId)
    && (r.operation == Tool ==> r.inputTokens == 0 && r.outputTokens == 0)
    && (r.operation == ModelAttempt ==> r.inputTokens != 0 && r.outputTokens != 0)
    && r.inputTokens + r.outputTokens <= U64_MAX
  }

  predicate ValidReservation(id: string, r: Reservation) {
    && ValidRequest(r.request) && id == r.request.id
    && (r.settlement.Some? ==> r.settlement.value.reservationId == id)
    && (r.request.operation == Tool ==>
          && (r.settlement.Some? && r.settlement.value.outcome.Known? ==> r.settlement.value.outcome.usage == NO_USAGE)
          && (r.observedUsage.Some? ==> r.observedUsage.value == NO_USAGE))
  }

  predicate ValidScope(s: Scope) {
    && ValidIdentity(s.id) && ValidIdentity(s.rootRunId) && ValidLimits(s.limits)
    && s.createdAtMs + s.limits.budget[WallTimeMs] <= U64_MAX
    && s.createdAtMs <= s.deadlineAtMs <= s.createdAtMs + s.limits.budget[WallTimeMs]
    && |s.reservations| <= MAX_RESERVATIONS
    && forall id | id in s.reservations :: ValidReservation(id, s.reservations[id])
  }

  function Bound(r: Registry, run: string): Option<string> {
    if run in r.runScopes then Some(r.runScopes[run]) else None
  }

  predicate ScopeInPlace(r: Registry, id: string)
    requires id in r.scopes
  {
    && ValidScope(r.scopes[id]) && id == r.scopes[id].id
    && Bound(r, r.scopes[id].rootRunId) == Some(id)
    && forall key | key in r.scopes[id].reservations ::
         Bound(r, r.scopes[id].reservations[key].request.runId) == Some(id)
  }

  predicate WithinCapacity(r: Registry) {
    |r.scopes| <= MAX_SCOPES && |r.runScopes| <= MAX_BINDINGS
  }

  predicate ScopesInPlace(r: Registry) {
    forall id {:trigger ScopeInPlace(r, id)} | id in r.scopes :: ScopeInPlace(r, id)
  }

  predicate BindingsInPlace(r: Registry) {
    forall run | run in r.runScopes :: ValidIdentity(run) && r.runScopes[run] in r.scopes
  }

  predicate Valid(r: Registry) {
    WithinCapacity(r) && ScopesInPlace(r) && BindingsInPlace(r)
  }

  /** The sizes a valid registry stays within, and the names it may use. */
  lemma ValidBounds(r: Registry, run: string)
    requires Valid(r)
    ensures |r.scopes| <= 8192 && |r.runScopes| <= 65536
    ensures run in r.runScopes ==> Utf8Len(run) <= 256 && !Blank(run) && !HasControl(run) && r.runScopes[run] in r.scopes
    ensures forall id | id in r.scopes :: id == r.scopes[id].id && |r.scopes[id].reservations| <= 8192
  {
    forall id | id in r.scopes
      ensures id == r.scopes[id].id && |r.scopes[id].reservations| <= 8192
    {
      assert ScopeInPlace(r, id);
    }
  }

  // ---------------------------------------------------------------- evidence order

  predicate RetainsUsage(later: Option<TokenUsage>, earlier: Option<TokenUsage>) {
    earlier.Some? ==>
      && later.Some?
      && later.value.prompt >= earlier.value.prompt && later.value.completion >= earlier.value.completion
      && later.value.total >= earlier.value.total && later.value.cachedPrompt >= earlier.value.cachedPrompt
      && later.value.reasoning >= earlier.value.reasoning
  }

  predicate RetainsOutcome(later: Outcome, earlier: Outcome) {
    match earlier
    case Known(usage) => later == earlier
    case ProvenNeverSent => later == earlier
    case Unknown(_) => !later.ProvenNeverSent?
  }

  predicate RetainsSettlement(later: Option<Settlement>, earlier: Option<Settlement>) {
    earlier.Some? ==>
      && later.Some?
      && RetainsOutcome(later.value.outcome, earlier.value.outcome)
      && (earlier.value.physicalRetired ==> later.value.physicalRetired)
      && RetainsUsage(later.value.observedUsage, earlier.value.observedUsage)
  }

  predicate RetainsReservation(later: Reservation, earlier: Reservation) {
    && later.request == earlier.request
    && RetainsUsage(later.observedUsage, earlier.observedUsage)
    && RetainsSettlement(later.settlement, earlier.settlement)
  }

  predicate RetainsScope(later: Scope, earlier: Scope) {
    && later.rootRunId == earlier.rootRunId && later.createdAtMs == earlier.createdAtMs
    && later.deadlineAtMs <= earlier.deadlineAtMs && later.version >= earlier.version
    && Within(later.limits, earlier.limits)
    && forall key | key in earlier.reservations ::
         key in later.reservations && RetainsReservation(later.reservations[key], earlier.reservations[key])
  }

  /** `later` keeps every binding, scope, reservation and settlement of `earlier` and loosens no limit. */
  predicate Retains(later: Registry, earlier: Registry) {
    Valid(later) && KeepsBindings(later, earlier) && KeepsScopes(later, earlier)
  }

  predicate KeepsBindings(later: Registry, earlier: Registry) {
    forall run | run in earlier.runScopes :: Bound(later, run) == Some(earlier.runScopes[run])
  }

  predicate KeepsScopes(later: Registry, earlier: Registry) {
    forall id | id in earlier.scopes :: id in later.scopes && RetainsScope(later.scopes[id], earlier.scopes[id])
  }

  lemma RetainsScopeReflexive(s: Scope)
    ensures RetainsScope(s, s)
  {
    forall key | key in s.reservations
      ensures RetainsReservation(s.reservations[key], s.reservations[key])
    {
    }
  }

  lemma RetainsReflexive(r: Registry)
    ensures Valid(r) <==> Retains(r, r)
  {
    forall id | id in r.scopes
      ensures RetainsScope(r.scopes[id], r.scopes[id])
    {
      RetainsScopeReflexive(r.scopes[id]);
    }
  }

  lemma RetainsScopeTransitive(a: Scope, b: Scope, c: Scope)
    requires RetainsScope(a, b) && RetainsScope(b, c)
    ensures RetainsScope(a, c)
  {
    WithinTransitive(a.limits, b.limits, c.limits);
    forall key | key in c.reservations
      ensures key in a.reservations && RetainsReservation(a.reservations[key], c.reservations[key])
    {
      assert key in b.reservations && RetainsReservation(b.reservations[key], c.reservations[key]);
      assert RetainsReservation(a.reservations[key], b.reservations[key]);
    }
  }

  lemma RetainsTransitive(a: Registry, b: Registry, c: Registry)
    requires Retains(a, b) && Retains(b, c)
    ensures Retains(a, c)
  {
    forall run | run in c.runScopes
      ensures Bound(a, run) == Some(c.runScopes[run])
    {
      assert Bound(b, run) == Some(c.runScopes[run]);
    }
    forall id | id in c.scopes
      ensures id in a.scopes && RetainsScope(a.scopes[id], c.scopes[id])
    {
      assert id in b.scopes && RetainsScope(b.scopes[id], c.scopes[id]);
      RetainsScopeTransitive(a.scopes[id], b.scopes[id], c.scopes[id]);
    }
  }

  // ---------------------------------------------------------------- binding a run

  datatype Binding = Binding(scopeId: string, runId: string, deadlineAtMs: nat)

  datatype Candidate = Candidate(expectedGeneration: nat, registry: Registry, binding: Binding)

  /** Whether a scope still has allowance at a time; its accounting arithmetic is not modelled. */
  type Allowance = (Scope, nat) -> bool

  /** All sources are bound, none is the run itself, and they agree about the scope. */
  predicate Agreed(r: Registry, runId: string, lineage: seq<string>) {
    forall i | 0 <= i < |lineage| ::
      && ValidIdentity(lineage[i]) && lineage[i] != runId && lineage[i] in r.runScopes
      && Bound(r, lineage[i]) == Bound(r, lineage[0])
  }

  function Inherited(r: Registry, lineage: seq<string>): Option<string> {
    if lineage == [] then None else Bound(r, lineage[0])
  }

  /** Walks the lineage once, refusing at the first source that is missing or disagrees. */
  method InheritScope(r: Registry, runId: string, lineage: seq<string>) returns (inherited: Result<Option<string>>)
    ensures inherited == if Agreed(r, runId, lineage) then Ok(Inherited(r, lineage)) else Err
  {
    var found: Option<string> := None;
    var i := 0;
    while i < |lineage|
      invariant 0 <= i <= |lineage|
      invariant Agreed(r, runId, lineage[..i]) && found == Inherited(r, lineage[..i])
    {
      var source := lineage[i];
      assert lineage[..i + 1][..i] == lineage[..i] && lineage[..i + 1][i] == source;
      if !ValidIdentity(source) || source == runId || source !in r.runScopes {
        return Err;
      }
      if found.Some? && found.value != r.runScopes[source] {
        assert lineage[..i][0] == lineage[0];
        return Err;
      }
      found := Some(r.runScopes[source]);
      i := i + 1;
    }
    assert lineage[..i] == lineage;
    inherited := Ok(found);
  }

  /** What a new scope starts with: an unused id, the default limits and the time. */
  datatype Opening = Opening(id: string, limits: Limits, nowMs: nat)

  function OpenScope(o: Opening, runId: string): Result<Scope> {
    if !ValidLimits(o.limits) then Err
    else
      var scope := Scope(o.id, runId, o.limits, o.nowMs, o.nowMs + o.limits.budget[WallTimeMs], map[], 0);
      if ValidScope(scope) then Ok(scope) else Err
  }

  /** Under the default limits a scope opens exactly for valid names and a deadline that fits. */
  lemma DefaultScopeOpens(id: string, runId: string, nowMs: nat)
    ensures OpenScope(Opening(id, DEFAULT_LIMITS, nowMs), runId).Ok? <==>
      ValidIdentity(id) && ValidIdentity(runId) && nowMs + 30 * 60 * 1000 <= U64_MAX
  {
    DefaultLimitsAreValid();
  }

  /** A new scope has the limits it was opened with, their whole wall time ahead, and nothing on record. */
  lemma OpenedScope(o: Opening, runId: string)
    requires OpenScope(o, runId).Ok?
    ensures var s := OpenScope(o, runId).value;
      && ValidScope(s) && s.id == o.id && s.rootRunId == runId && s.limits == o.limits && s.createdAtMs == o.nowMs
      && s.deadlineAtMs - s.createdAtMs == o.limits.budget[WallTimeMs] && s.reservations == map[] && s.version == 0
  {
  }

  /** The registry with the run bound, or Err where the source refuses; `rooted` is the scope a root run opens. */
  function Extend(r: Registry, runId: string, lineage: seq<string>, rooted: Result<Scope>): Result<(Registry, string)> {
    if runId in r.runScopes then
      var existing := r.runScopes[runId];
      if Inherited(r, lineage).Some? && Inherited(r, lineage) != Some(existing) then Err
      else if lineage == [] && (existing !in r.scopes || r.scopes[existing].rootRunId != runId) then Err
      else Ok((r, existing))
    else if |r.runScopes| >= MAX_BINDINGS || r.generation + 1 > U64_MAX then Err
    else if Inherited(r, lineage).Some? then Ok((WithBinding(r, runId, Inherited(r, lineage).value), Inherited(r, lineage).value))
    else if |r.scopes| >= MAX_SCOPES || rooted.Err? then Err
    else Ok((WithNewScope(r, runId, rooted.value), rooted.value.id))
  }

  function WithBinding(r: Registry, runId: string, id: string): Registry {
    Registry(r.generation + 1, r.scopes, r.runScopes[runId := id])
  }

  /** The registry with a new scope rooted at the run. */
  function WithNewScope(r: Registry, runId: string, scope: Scope): Registry {
    Registry(r.generation + 1, r.scopes[scope.id := scope], r.runScopes[runId := scope.id])
  }

  /** A scope a root run opens is valid, empty, rooted at its run and new to the registry. */
  predicate FreshRoot(r: Registry, runId: string, rooted: Result<Scope>) {
    rooted.Ok? ==>
      && ValidScope(rooted.value) && rooted.value.rootRunId == runId && rooted.value.reservations == map[]
      && rooted.value.id !in r.scopes
  }

  function PrepareBinding(r: Registry, runId: string, lineage: seq<string>, o: Opening, allowed: Allowance): Result<Candidate> {
    if !Valid(r) || !ValidIdentity(runId) || !Agreed(r, runId, lineage) then Err
    else match Extend(r, runId, lineage, OpenScope(o, runId))
      case Err => Err
      case Ok((registry, id)) =>
        if id !in registry.scopes || !allowed(registry.scopes[id], o.nowMs) || !Valid(registry) then Err
        else Ok(Candidate(r.generation, registry, Binding(id, runId, registry.scopes[id].deadlineAtMs)))
  }

  /** A scope stays in place while its own contents and the bindings stay. */
  lemma StayInPlace(r: Registry, larger: Registry, ids: set<string>)
    requires ScopesInPlace(r) && KeepsBindings(larger, r)
    requires forall id | id in ids :: id in r.scopes && id in larger.scopes && larger.scopes[id] == r.scopes[id]
    ensures forall id | id in ids :: ScopeInPlace(larger, id)
  {
    forall id | id in ids
      ensures ScopeInPlace(larger, id)
    {
      assert ScopeInPlace(r, id);
    }
  }

  lemma SameScopesKept(r: Registry, larger: Registry)
    requires forall id | id in r.scopes :: id in larger.scopes && larger.scopes[id] == r.scopes[id]
    ensures KeepsScopes(larger, r)
  {
    forall id | id in r.scopes
      ensures id in larger.scopes && RetainsScope(larger.scopes[id], r.scopes[id])
    {
      RetainsScopeReflexive(r.scopes[id]);
    }
  }

  /** One more binding keeps the others and points to a scope. */
  lemma BindingsGrow(r: Registry, larger: Registry, runId: string, id: string)
    requires BindingsInPlace(r) && ValidIdentity(runId) && runId !in r.runScopes
    requires larger.runScopes == r.runScopes[runId := id] && r.scopes.Keys <= larger.scopes.Keys && id in larger.scopes
    ensures BindingsInPlace(larger) && KeepsBindings(larger, r)
    ensures |larger.runScopes| == |r.runScopes| + 1
  {
    assert larger.runScopes.Keys == r.runScopes.Keys + {runId};
  }

  /** Binding a run to a scope that is already there. */
  lemma BindingRetains(r: Registry, larger: Registry, runId: string, id: string)
    requires Valid(r) && ValidIdentity(runId) && runId !in r.runScopes && |r.runScopes| < MAX_BINDINGS
    requires larger.runScopes == r.runScopes[runId := id] && larger.scopes == r.scopes && id in r.scopes
    ensures Retains(larger, r)
  {
    BindingsGrow(r, larger, runId, id);
    StayInPlace(r, larger, r.scopes.Keys);
    SameScopesKept(r, larger);
  }

  predicate AddsScope(r: Registry, larger: Registry, id: string) {
    && larger.scopes.Keys == r.scopes.Keys + {id}
    && forall i | i in r.scopes :: larger.scopes[i] == r.scopes[i]
  }

  lemma ScopesGrow(r: Registry, larger: Registry, id: string)
    requires ScopesInPlace(r) && KeepsBindings(larger, r) && id !in r.scopes
    requires AddsScope(r, larger, id) && ScopeInPlace(larger, id)
    ensures ScopesInPlace(larger) && |larger.scopes| == |r.scopes| + 1
  {
    StayInPlace(r, larger, r.scopes.Keys);
  }

  /** Binding a run to a new scope of its own. */
  lemma NewScopeRetains(r: Registry, larger: Registry, runId: string, id: string)
    requires Valid(r) && ValidIdentity(runId) && runId !in r.runScopes && id !in r.scopes
    requires |r.runScopes| < MAX_BINDINGS && |r.scopes| < MAX_SCOPES
    requires larger.runScopes == r.runScopes[runId := id] && AddsScope(r, larger, id) && ScopeInPlace(larger, id)
    ensures Retains(larger, r)
  {
    BindingsGrow(r, larger, runId, id);
    ScopesGrow(r, larger, id);
    SameScopesKept(r, larger);
  }

  lemma NewRootInPlace(r: Registry, runId: string, rooted: Result<Scope>)
    requires rooted.Ok? && FreshRoot(r, runId, rooted)
    ensures AddsScope(r, WithNewScope(r, runId, rooted.value), rooted.value.id)
    ensures ScopeInPlace(WithNewScope(r, runId, rooted.value), rooted.value.id)
  {
  }

  lemma NewRootRetains(r: Registry, runId: string, rooted: Result<Scope>)
    requires Valid(r) && ValidIdentity(runId) && runId !in r.runScopes
    requires |r.runScopes| < MAX_BINDINGS && |r.scopes| < MAX_SCOPES
    requires rooted.Ok? && FreshRoot(r, runId, rooted)
    ensures Retains(WithNewScope(r, runId, rooted.value), r)
  {
    NewRootInPlace(r, runId, rooted);
    NewScopeRetains(r, WithNewScope(r, runId, rooted.value), runId, rooted.value.id);
  }

  /** Binding one more run to a scope of a valid registry keeps it valid and loses nothing. */
  lemma ExtendRetains(r: Registry, runId: string, lineage: seq<string>, rooted: Result<Scope>)
    requires Valid(r) && ValidIdentity(runId) && Agreed(r, runId, lineage) && FreshRoot(r, runId, rooted)
    requires Extend(r, runId, lineage, rooted).Ok?
    ensures Retains(Extend(r, runId, lineage, rooted).value.0, r)
  {
    if runId in r.runScopes {
      RetainsReflexive(r);
    } else if Inherited(r, lineage).Some? {
      BindingRetains(r, WithBinding(r, runId, Inherited(r, lineage).value), runId, Inherited(r, lineage).value);
    } else {
      NewRootRetains(r, runId, rooted);
    }
  }

  /** The run ends up in the scope of every lineage source, or at the root of a scope of its own. */
  lemma ExtendBinds(r: Registry, runId: string, lineage: seq<string>, rooted: Result<Scope>)
    requires BindingsInPlace(r) && Agreed(r, runId, lineage) && FreshRoot(r, runId, rooted)
    requires Extend(r, runId, lineage, rooted).Ok?
    ensures var (registry, id) := Extend(r, runId, lineage, rooted).value;
      && id in registry.scopes
      && registry.runScopes == r.runScopes[runId := id]
      && (forall i | 0 <= i < |lineage| :: Bound(registry, lineage[i]) == Some(id))
      && (lineage == [] ==> registry.scopes[id].rootRunId == runId)
      && registry.scopes.Keys <= r.scopes.Keys + (if rooted.Ok? then {rooted.value.id} else {})
  {
    var (registry, id) := Extend(r, runId, lineage, rooted).value;
    forall i | 0 <= i < |lineage|
      ensures Bound(registry, lineage[i]) == Some(id)
    {
      assert Bound(r, lineage[i]) == Bound(r, lineage[0]);
    }
  }

  /** The generation moves by one exactly when something was added. */
  lemma ExtendCounts(r: Registry, runId: string, lineage: seq<string>, rooted: Result<Scope>)
    requires Extend(r, runId, lineage, rooted).Ok?
    ensures var registry := Extend(r, runId, lineage, rooted).value.0;
      && registry.generation == r.generation + (if registry == r then 0 else 1)
      && (registry == r <==> runId in r.runScopes)
  {
  }

  /**
   A successful binding yields a valid registry that retains the old one, moves the generation by one
   exactly when something was added, adds nothing but this run, and puts the run in the scope of every
   lineage source.
   */
  lemma PrepareBindingKeeps(r: Registry, runId: string, lineage: seq<string>, o: Opening, allowed: Allowance)
    requires o.id !in r.scopes
    requires PrepareBinding(r, runId, lineage, o, allowed).Ok?
    ensures var c := PrepareBinding(r, runId, lineage, o, allowed).value;
      && Retains(c.registry, r)
      && c.expectedGeneration == r.generation
      && c.registry.generation == r.generation + (if c.registry == r then 0 else 1)
      && (c.registry == r <==> runId in r.runScopes)
      && c.registry.runScopes == r.runScopes[runId := c.binding.scopeId]
      && c.binding.runId == runId && c.binding.scopeId in c.registry.scopes
      && c.binding.deadlineAtMs == c.registry.scopes[c.binding.scopeId].deadlineAtMs
      && (forall i | 0 <= i < |lineage| :: Bound(c.registry, lineage[i]) == Some(c.binding.scopeId))
      && (lineage == [] ==> c.registry.scopes[c.binding.scopeId].rootRunId == runId)
      && c.registry.scopes.Keys <= r.scopes.Keys + {o.id}
  {
    var rooted := OpenScope(o, runId);
    assert FreshRoot(r, runId, rooted);
    ExtendRetains(r, runId, lineage, rooted);
    ExtendBinds(r, runId, lineage, rooted);
    ExtendCounts(r, runId, lineage, rooted);
  }

  /** A root run that is new to the registry opens the scope it was to open. */
  lemma RootOpensScope(r: Registry, runId: string, o: Opening, allowed: Allowance)
    requires runId !in r.runScopes && PrepareBinding(r, runId, [], o, allowed).Ok?
    ensures var c := PrepareBinding(r, runId, [], o, allowed).value;
      && c.binding.scopeId == o.id && o.id in c.registry.scopes && OpenScope(o, runId) == Ok(c.registry.scopes[o.id])
  {
  }

  /** A binding is refused only for the reasons the source names: re-validating the result never fails. */
  lemma PrepareBindingSucceeds(r: Registry, runId: string, lineage: seq<string>, o: Opening, allowed: Allowance)
    requires o.id !in r.scopes && Valid(r) && ValidIdentity(runId) && Agreed(r, runId, lineage)
    ensures PrepareBinding(r, runId, lineage, o, allowed).Ok? <==>
      var e := Extend(r, runId, lineage, OpenScope(o, runId));
      e.Ok? && e.value.1 in e.value.0.scopes && allowed(e.value.0.scopes[e.value.1], o.nowMs)
  {
    if Extend(r, runId, lineage, OpenScope(o, runId)).Ok? {
      ExtendRetains(r, runId, lineage, OpenScope(o, runId));
    }
  }

  /** Run and source of every admission so far. */
  type Edges = set<(string, string)>
}
