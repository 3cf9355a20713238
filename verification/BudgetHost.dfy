/**
 The daemon's side of admission: which candidate a run gets, and what the live and the durable registry
 are after every save, acknowledged or not.
 */
module BudgetHost {
  import opened Wrappers
  import opened ExecutionLimits
  import opened BudgetRegistry
  import opened BudgetAdmission

  /** The fields of a run record that admission reads; `started` is any evidence of a physical attempt. */
  datatype RunRecord = RunRecord(
    id: string, agentId: string, parentRunId: Option<string>, recoveryOf: Option<string>,
    helperParent: Option<string>, completion: Option<(string, string)>, started: bool)

  datatype Host = Host(
    owned: bool, budgets: Registry, runs: map<string, RunRecord>, agents: Agents, failures: set<string>)

  function Listed(x: Option<string>): seq<string> {
    if x.Some? then [x.value] else []
  }

  function Lineage(record: RunRecord): seq<string> {
    Listed(record.parentRunId) + Listed(record.recoveryOf) + Listed(record.helperParent)
    + (if record.completion.Some? then [record.completion.value.0, record.completion.value.1] else [])
  }

  /** An unbound recovery source that never started is bound first; one that started is refused. */
  function Adopt(host: Host, record: RunRecord, o: Opening, allowed: Allowance): Result<Registry> {
    if record.recoveryOf.None? || record.recoveryOf.value in host.budgets.runScopes then Ok(host.budgets)
    else if record.recoveryOf.value !in host.runs then Err
    else
      var source := host.runs[record.recoveryOf.value];
      if source.started then Err
      else match PrepareBinding(host.budgets, source.id, Lineage(source), o, allowed)
        case Err => Err
        case Ok(c) => Ok(c.registry)
  }

  /** The agents whose limits apply: the owner of the scope's root run and the owner of this run. */
  function Owners(host: Host, c: Candidate, record: RunRecord): seq<string> {
    var root := if c.binding.scopeId in c.registry.scopes then Some(c.registry.scopes[c.binding.scopeId].rootRunId) else None;
    if root.Some? && root.value in host.runs && host.runs[root.value].agentId != record.agentId
    then [host.runs[root.value].agentId, record.agentId] else [record.agentId]
  }

  /** Both bindings of an adoption count as one step of the host's generation. */
  function Rebase(budgets: Registry, c: Candidate): Candidate {
    Candidate(budgets.generation,
              if c.registry == budgets then budgets else c.registry.(generation := budgets.generation + 1),
              c.binding)
  }

  function PrepareRun(host: Host, record: RunRecord, adopted: Opening, o: Opening, allowed: Allowance): Result<Candidate> {
    if !host.owned || Adopt(host, record, adopted, allowed).Err? then Err
    else
      var registry := Adopt(host, record, adopted, allowed).value;
      if record.id !in registry.runScopes && record.id in host.runs && host.runs[record.id].started then Err
      else match PrepareBinding(registry, record.id, Lineage(record), o, allowed)
        case Err => Err
        case Ok(c) =>
          if c.registry != host.budgets && host.budgets.generation + 1 > U64_MAX then Err
          else
            var rebased := Rebase(host.budgets, c);
            match TightenByOwners(host.agents, rebased, Owners(host, rebased, record))
            case Err => Err
            case Ok(t) => if t.binding.scopeId in host.failures then Err else Ok(t)
  }

  predicate SameContents(a: Registry, b: Registry) {
    a.scopes == b.scopes && a.runScopes == b.runScopes
  }

  lemma SameKept(later: Registry, moved: Registry, earlier: Registry)
    requires SameContents(later, moved) && KeepsBindings(later, earlier) && KeepsScopes(later, earlier)
    ensures KeepsBindings(moved, earlier) && KeepsScopes(moved, earlier)
  {
  }

  lemma SamePlaces(later: Registry, moved: Registry)
    requires SameContents(later, moved) && ScopesInPlace(later)
    ensures ScopesInPlace(moved)
  {
    forall id | id in moved.scopes
      ensures ScopeInPlace(moved, id)
    {
      assert ScopeInPlace(later, id);
    }
  }

  /** Evidence does not depend on the generation number. */
  lemma RetainsAnyGeneration(later: Registry, moved: Registry, earlier: Registry)
    requires Retains(later, earlier) && SameContents(later, moved)
    ensures Retains(moved, earlier)
  {
    SamePlaces(later, moved);
    SameKept(later, moved, earlier);
  }

  /** A binding of the host survives in every registry that retains it. */
  lemma BoundRetained(later: Registry, earlier: Registry, run: string)
    requires Retains(later, earlier) && run in earlier.runScopes
    ensures Bound(later, run) == Some(earlier.runScopes[run])
  {
  }

  /** Every run the record names as its origin is bound to the scope. */
  ghost predicate OriginsBound(r: Registry, record: RunRecord, scope: string) {
    && (record.parentRunId.Some? ==> Bound(r, record.parentRunId.value) == Some(scope))
    && (record.recoveryOf.Some? ==> Bound(r, record.recoveryOf.value) == Some(scope))
    && (record.helperParent.Some? ==> Bound(r, record.helperParent.value) == Some(scope))
    && (record.completion.Some? ==>
          Bound(r, record.completion.value.0) == Some(scope) && Bound(r, record.completion.value.1) == Some(scope))
  }

  /** Every run the record names as its origin is recorded with it. */
  ghost predicate OriginsRecorded(edges: Edges, record: RunRecord) {
    && (record.parentRunId.Some? ==> (record.id, record.parentRunId.value) in edges)
    && (record.recoveryOf.Some? ==> (record.id, record.recoveryOf.value) in edges)
    && (record.helperParent.Some? ==> (record.id, record.helperParent.value) in edges)
    && (record.completion.Some? ==>
          (record.id, record.completion.value.0) in edges && (record.id, record.completion.value.1) in edges)
  }

  /** The lineage is exactly the origins that the record names. */
  lemma LineageIsOrigins(record: RunRecord, run: string)
    ensures run in Lineage(record) <==>
      || record.parentRunId == Some(run) || record.recoveryOf == Some(run) || record.helperParent == Some(run)
      || (record.completion.Some? && (record.completion.value.0 == run || record.completion.value.1 == run))
  {
  }

  lemma OriginsFollow(r: Registry, record: RunRecord, scope: string)
    requires forall i | 0 <= i < |Lineage(record)| :: Bound(r, Lineage(record)[i]) == Some(scope)
    ensures OriginsBound(r, record, scope)
  {
    var lineage := Lineage(record);
    forall run | run in lineage
      ensures Bound(r, run) == Some(scope)
    {
      var i :| 0 <= i < |lineage| && lineage[i] == run;
    }
    if record.parentRunId.Some? { LineageIsOrigins(record, record.parentRunId.value); }
    if record.recoveryOf.Some? { LineageIsOrigins(record, record.recoveryOf.value); }
    if record.helperParent.Some? { LineageIsOrigins(record, record.helperParent.value); }
    if record.completion.Some? {
      LineageIsOrigins(record, record.completion.value.0);
      LineageIsOrigins(record, record.completion.value.1);
    }
  }

  lemma EdgesRecordOrigins(record: RunRecord)
    ensures OriginsRecorded(EdgesOf(record), record)
  {
    if record.parentRunId.Some? { LineageIsOrigins(record, record.parentRunId.value); }
    if record.recoveryOf.Some? { LineageIsOrigins(record, record.recoveryOf.value); }
    if record.helperParent.Some? { LineageIsOrigins(record, record.helperParent.value); }
    if record.completion.Some? {
      LineageIsOrigins(record, record.completion.value.0);
      LineageIsOrigins(record, record.completion.value.1);
    }
  }

  /** The run and each of its lineage sources. */
  function EdgesOf(record: RunRecord): Edges {
    set source | source in Lineage(record) :: (record.id, source)
  }

  predicate Adopts(host: Host, record: RunRecord) {
    record.recoveryOf.Some? && record.recoveryOf.value !in host.budgets.runScopes && record.recoveryOf.value in host.runs
  }

  /** The edges of the recovery source that an admission adopts, if it does. */
  function AdoptedEdges(host: Host, record: RunRecord): Edges {
    if Adopts(host, record) then EdgesOf(host.runs[record.recoveryOf.value]) else {}
  }

  /** The edges an admission adds: those of the run, and those of the recovery source it adopts. */
  function AdmissionEdges(host: Host, record: RunRecord): Edges {
    EdgesOf(record) + AdoptedEdges(host, record)
  }

  /** Both ends of every edge are bound, to one scope. */
  ghost predicate Together(r: Registry, edges: Edges) {
    forall edge | edge in edges :: Bound(r, edge.0).Some? && Bound(r, edge.1) == Bound(r, edge.0)
  }

  lemma TogetherRetained(later: Registry, earlier: Registry, edges: Edges)
    requires Retains(later, earlier) && Together(earlier, edges)
    ensures Together(later, edges)
  {
    forall edge | edge in edges
      ensures Bound(later, edge.0).Some? && Bound(later, edge.1) == Bound(later, edge.0)
    {
      BoundRetained(later, earlier, edge.0);
      BoundRetained(later, earlier, edge.1);
    }
  }

  lemma BoundTogether(r: Registry, record: RunRecord, scope: string)
    requires Bound(r, record.id) == Some(scope)
    requires forall i | 0 <= i < |Lineage(record)| :: Bound(r, Lineage(record)[i]) == Some(scope)
    ensures Together(r, EdgesOf(record))
  {
    var lineage := Lineage(record);
    forall edge | edge in EdgesOf(record)
      ensures Bound(r, edge.0).Some? && Bound(r, edge.1) == Bound(r, edge.0)
    {
      var i :| 0 <= i < |lineage| && lineage[i] == edge.1;
      assert Bound(r, lineage[i]) == Some(scope);
    }
  }

  /** Adopting a source loses nothing and binds it to the scope of all its own lineage. */
  lemma AdoptKeeps(host: Host, record: RunRecord, o: Opening, allowed: Allowance)
    requires Valid(host.budgets) && o.id !in host.budgets.scopes && Adopt(host, record, o, allowed).Ok?
    ensures Retains(Adopt(host, record, o, allowed).value, host.budgets)
    ensures Adopt(host, record, o, allowed).value.scopes.Keys <= host.budgets.scopes.Keys + {o.id}
    ensures Together(Adopt(host, record, o, allowed).value, AdoptedEdges(host, record))
  {
    if record.recoveryOf.None? || record.recoveryOf.value in host.budgets.runScopes {
      RetainsReflexive(host.budgets);
    } else {
      var source := host.runs[record.recoveryOf.value];
      PrepareBindingKeeps(host.budgets, source.id, Lineage(source), o, allowed);
      var c := PrepareBinding(host.budgets, source.id, Lineage(source), o, allowed).value;
      BoundTogether(c.registry, source, c.binding.scopeId);
    }
  }

  /** The candidate binds the run to the scope of all its lineage, at most one generation ahead. */
  predicate Binds(budgets: Registry, record: RunRecord, c: Candidate) {
    && c.expectedGeneration == budgets.generation
    && (c.registry == budgets || c.registry.generation == budgets.generation + 1)
    && c.binding.runId == record.id
    && Bound(c.registry, record.id) == Some(c.binding.scopeId)
    && forall i | 0 <= i < |Lineage(record)| :: Bound(c.registry, Lineage(record)[i]) == Some(c.binding.scopeId)
  }

  lemma RebaseRetains(budgets: Registry, c: Candidate)
    requires Retains(c.registry, budgets)
    ensures Retains(Rebase(budgets, c).registry, budgets)
  {
    RetainsAnyGeneration(c.registry, Rebase(budgets, c).registry, budgets);
  }

  lemma RebaseBinds(budgets: Registry, record: RunRecord, c: Candidate)
    requires c.binding.runId == record.id && Bound(c.registry, record.id) == Some(c.binding.scopeId)
    requires forall i | 0 <= i < |Lineage(record)| :: Bound(c.registry, Lineage(record)[i]) == Some(c.binding.scopeId)
    ensures Binds(budgets, record, Rebase(budgets, c))
  {
    var lineage, rebased := Lineage(record), Rebase(budgets, c);
    forall i | 0 <= i < |lineage|
      ensures Bound(rebased.registry, lineage[i]) == Some(c.binding.scopeId)
    {
      assert Bound(c.registry, lineage[i]) == Some(c.binding.scopeId);
    }
  }

  lemma TighteningBinds(budgets: Registry, record: RunRecord, c: Candidate, t: Candidate)
    requires Binds(budgets, record, c)
    requires t.registry.runScopes == c.registry.runScopes && t.expectedGeneration == c.expectedGeneration
    requires t.binding.scopeId == c.binding.scopeId && t.binding.runId == c.binding.runId
    requires t.registry == c.registry || t.registry.generation == c.expectedGeneration + 1
    ensures Binds(budgets, record, t)
  {
    var lineage := Lineage(record);
    forall i | 0 <= i < |lineage|
      ensures Bound(t.registry, lineage[i]) == Some(t.binding.scopeId)
    {
      assert Bound(c.registry, lineage[i]) == Some(c.binding.scopeId);
    }
  }

  /** The two bindings of an admission: what was adopted and what was prepared on top of it. */
  lemma PreparedKeeps(host: Host, record: RunRecord, adopted: Opening, o: Opening, allowed: Allowance)
    requires Valid(host.budgets) && adopted.id !in host.budgets.scopes && o.id !in host.budgets.scopes && adopted.id != o.id
    requires Adopt(host, record, adopted, allowed).Ok?
    requires PrepareBinding(Adopt(host, record, adopted, allowed).value, record.id, Lineage(record), o, allowed).Ok?
    ensures var c := PrepareBinding(Adopt(host, record, adopted, allowed).value, record.id, Lineage(record), o, allowed).value;
      && Retains(c.registry, host.budgets) && Together(c.registry, AdmissionEdges(host, record))
      && c.binding.runId == record.id && Bound(c.registry, record.id) == Some(c.binding.scopeId)
      && forall i | 0 <= i < |Lineage(record)| :: Bound(c.registry, Lineage(record)[i]) == Some(c.binding.scopeId)
  {
    AdoptKeeps(host, record, adopted, allowed);
    var registry := Adopt(host, record, adopted, allowed).value;
    BoundOnTop(host.budgets, registry, record, o, allowed, AdoptedEdges(host, record));
  }

  /** Binding a run in a registry that already retains the budgets and keeps some edges together. */
  lemma BoundOnTop(budgets: Registry, registry: Registry, record: RunRecord, o: Opening, allowed: Allowance, before: Edges)
    requires Retains(registry, budgets) && Together(registry, before) && o.id !in registry.scopes
    requires PrepareBinding(registry, record.id, Lineage(record), o, allowed).Ok?
    ensures var c := PrepareBinding(registry, record.id, Lineage(record), o, allowed).value;
      && Retains(c.registry, budgets) && Together(c.registry, EdgesOf(record) + before)
      && c.binding.runId == record.id && Bound(c.registry, record.id) == Some(c.binding.scopeId)
      && forall i | 0 <= i < |Lineage(record)| :: Bound(c.registry, Lineage(record)[i]) == Some(c.binding.scopeId)
  {
    PrepareBindingKeeps(registry, record.id, Lineage(record), o, allowed);
    var c := PrepareBinding(registry, record.id, Lineage(record), o, allowed).value;
    RetainsTransitive(c.registry, registry, budgets);
    BoundTogether(c.registry, record, c.binding.scopeId);
    TogetherRetained(c.registry, registry, before);
  }

  /** Rebasing and tightening keep what the bindings established. */
  lemma FinishedKeeps(budgets: Registry, agents: Agents, record: RunRecord, prepared: Candidate, owners: seq<string>, edges: Edges)
    requires Retains(prepared.registry, budgets) && Together(prepared.registry, edges)
    requires prepared.binding.runId == record.id && Bound(prepared.registry, record.id) == Some(prepared.binding.scopeId)
    requires forall i | 0 <= i < |Lineage(record)| :: Bound(prepared.registry, Lineage(record)[i]) == Some(prepared.binding.scopeId)
    requires TightenByOwners(agents, Rebase(budgets, prepared), owners).Ok?
    ensures var t := TightenByOwners(agents, Rebase(budgets, prepared), owners).value;
      Retains(t.registry, budgets) && Binds(budgets, record, t) && Together(t.registry, edges)
  {
    RebaseRetains(budgets, prepared);
    RebaseBinds(budgets, record, prepared);
    var c := Rebase(budgets, prepared);
    var t := TightenByOwners(agents, c, owners).value;
    TightenByOwnersKeeps(agents, c, owners);
    TighteningBinds(budgets, record, c, t);
    RetainsTransitive(t.registry, c.registry, budgets);
    SameBindingsTogether(prepared.registry, t.registry, edges);
  }

  lemma SameBindingsTogether(r: Registry, next: Registry, edges: Edges)
    requires Together(r, edges) && next.runScopes == r.runScopes
    ensures Together(next, edges)
  {
    forall edge | edge in edges
      ensures Bound(next, edge.0).Some? && Bound(next, edge.1) == Bound(next, edge.0)
    {
      assert Bound(r, edge.0).Some? && Bound(r, edge.1) == Bound(r, edge.0);
    }
  }

  lemma PrepareRunRetains(host: Host, record: RunRecord, adopted: Opening, o: Opening, allowed: Allowance)
    requires Valid(host.budgets) && adopted.id !in host.budgets.scopes && o.id !in host.budgets.scopes && adopted.id != o.id
    requires PrepareRun(host, record, adopted, o, allowed).Ok?
    ensures Retains(PrepareRun(host, record, adopted, o, allowed).value.registry, host.budgets)
    ensures Binds(host.budgets, record, PrepareRun(host, record, adopted, o, allowed).value)
    ensures Together(PrepareRun(host, record, adopted, o, allowed).value.registry, AdmissionEdges(host, record))
  {
    PreparedKeeps(host, record, adopted, o, allowed);
    var registry := Adopt(host, record, adopted, allowed).value;
    var prepared := PrepareBinding(registry, record.id, Lineage(record), o, allowed).value;
    var c := Rebase(host.budgets, prepared);
    FinishedKeeps(host.budgets, host.agents, record, prepared, Owners(host, c, record), AdmissionEdges(host, record));
  }

  /** The ledger entry of an adopted source is the one the record names, or the lineage would not be bound. */
  lemma AdoptedIsNamed(host: Host, record: RunRecord, adopted: Opening, o: Opening, allowed: Allowance)
    requires Adopts(host, record) && adopted.id !in host.budgets.scopes && PrepareRun(host, record, adopted, o, allowed).Ok?
    ensures host.runs[record.recoveryOf.value].id == record.recoveryOf.value
  {
    var source := host.runs[record.recoveryOf.value];
    PrepareBindingKeeps(host.budgets, source.id, Lineage(source), adopted, allowed);
    LineageIsOrigins(record, record.recoveryOf.value);
    var registry, lineage := Adopt(host, record, adopted, allowed).value, Lineage(record);
    var i :| 0 <= i < |lineage| && lineage[i] == record.recoveryOf.value;
    assert Agreed(registry, record.id, lineage);
    assert lineage[i] in registry.runScopes;
  }

  /**
   Every admission yields a valid registry that retains the live one, one generation later if anything changed, with
   the run and every origin it names in one scope, an adopted recovery source and every origin that names in it too,
   within the limits of the agents that own the run and the scope's root, and never in a latched scope.
   */
  lemma PrepareRunKeeps(host: Host, record: RunRecord, adopted: Opening, o: Opening, allowed: Allowance)
    requires Valid(host.budgets) && adopted.id !in host.budgets.scopes && o.id !in host.budgets.scopes && adopted.id != o.id
    requires PrepareRun(host, record, adopted, o, allowed).Ok?
    ensures Retains(PrepareRun(host, record, adopted, o, allowed).value.registry, host.budgets)
    ensures Binds(host.budgets, record, PrepareRun(host, record, adopted, o, allowed).value)
    ensures Together(PrepareRun(host, record, adopted, o, allowed).value.registry, AdmissionEdges(host, record))
    ensures PrepareRun(host, record, adopted, o, allowed).value.binding.scopeId !in host.failures
    ensures Placed(host, record, PrepareRun(host, record, adopted, o, allowed).value)
    ensures Governed(host, record, PrepareRun(host, record, adopted, o, allowed).value)
  {
    PrepareRunRetains(host, record, adopted, o, allowed);
    NeverLatched(host, record, adopted, o, allowed);
    PrepareRunPlaces(host, record, adopted, o, allowed);
    PrepareRunGoverns(host, record, adopted, o, allowed);
  }

  /** The run, its origins, an adopted source and the origins of that are all bound to the candidate's scope. */
  ghost predicate Placed(host: Host, record: RunRecord, c: Candidate) {
    && c.binding.runId == record.id && Bound(c.registry, record.id) == Some(c.binding.scopeId)
    && OriginsBound(c.registry, record, c.binding.scopeId)
    && (Adopts(host, record) ==> OriginsBound(c.registry, host.runs[record.recoveryOf.value], c.binding.scopeId))
  }

  lemma PrepareRunPlaces(host: Host, record: RunRecord, adopted: Opening, o: Opening, allowed: Allowance)
    requires Valid(host.budgets) && adopted.id !in host.budgets.scopes && o.id !in host.budgets.scopes && adopted.id != o.id
    requires PrepareRun(host, record, adopted, o, allowed).Ok?
    ensures Placed(host, record, PrepareRun(host, record, adopted, o, allowed).value)
  {
    PrepareRunRetains(host, record, adopted, o, allowed);
    if Adopts(host, record) { AdoptedIsNamed(host, record, adopted, o, allowed); }
    BoundIsPlaced(host, record, PrepareRun(host, record, adopted, o, allowed).value);
  }

  lemma BoundIsPlaced(host: Host, record: RunRecord, c: Candidate)
    requires Binds(host.budgets, record, c) && Together(c.registry, AdmissionEdges(host, record))
    requires Adopts(host, record) ==> host.runs[record.recoveryOf.value].id == record.recoveryOf.value
    ensures Placed(host, record, c)
  {
    OriginsFollow(c.registry, record, c.binding.scopeId);
    if Adopts(host, record) {
      AdoptedFollow(c.registry, host, record, c.binding.scopeId);
    }
  }

  /** The candidate's scope lies within the limits of an agent, which exists. */
  ghost predicate WithinAgent(host: Host, agent: string, c: Candidate) {
    && agent in host.agents && c.binding.scopeId in c.registry.scopes
    && (host.agents[agent].Some? ==> Within(c.registry.scopes[c.binding.scopeId].limits, host.agents[agent].value))
  }

  /** The agent of the run, and the agent of the run that opened the scope where that is known, limit the scope. */
  ghost predicate Governed(host: Host, record: RunRecord, c: Candidate) {
    && WithinAgent(host, record.agentId, c)
    && var root := c.registry.scopes[c.binding.scopeId].rootRunId;
       (root in host.runs ==> WithinAgent(host, host.runs[root].agentId, c))
  }

  lemma PrepareRunGoverns(host: Host, record: RunRecord, adopted: Opening, o: Opening, allowed: Allowance)
    requires Valid(host.budgets) && adopted.id !in host.budgets.scopes && o.id !in host.budgets.scopes && adopted.id != o.id
    requires PrepareRun(host, record, adopted, o, allowed).Ok?
    ensures Governed(host, record, PrepareRun(host, record, adopted, o, allowed).value)
  {
    PreparedKeeps(host, record, adopted, o, allowed);
    var prepared := PrepareBinding(Adopt(host, record, adopted, allowed).value, record.id, Lineage(record), o, allowed).value;
    RebaseRetains(host.budgets, prepared);
    PreparedScope(Adopt(host, record, adopted, allowed).value, record, o, allowed);
    OwnersGovern(host, record, Rebase(host.budgets, prepared));
  }

  lemma PreparedScope(registry: Registry, record: RunRecord, o: Opening, allowed: Allowance)
    requires PrepareBinding(registry, record.id, Lineage(record), o, allowed).Ok?
    ensures var c := PrepareBinding(registry, record.id, Lineage(record), o, allowed).value;
      c.binding.scopeId in c.registry.scopes
  {
  }

  lemma OwnersGovern(host: Host, record: RunRecord, c: Candidate)
    requires Valid(c.registry) && c.binding.scopeId in c.registry.scopes
    requires TightenByOwners(host.agents, c, Owners(host, c, record)).Ok?
    ensures Governed(host, record, TightenByOwners(host.agents, c, Owners(host, c, record)).value)
  {
    var owners := Owners(host, c, record);
    OwnersLimit(host.agents, c, owners);
    OwnersKeepRoot(host.agents, c, owners);
    assert record.agentId in owners;
    var root := c.registry.scopes[c.binding.scopeId].rootRunId;
    if root in host.runs { assert host.runs[root].agentId in owners; }
  }

  /** An adopted source is an origin of the run, so its own origins are in the same scope. */
  lemma AdoptedFollow(r: Registry, host: Host, record: RunRecord, scope: string)
    requires Adopts(host, record) && host.runs[record.recoveryOf.value].id == record.recoveryOf.value
    requires Bound(r, record.recoveryOf.value) == Some(scope) && Together(r, AdmissionEdges(host, record))
    ensures OriginsBound(r, host.runs[record.recoveryOf.value], scope)
  {
    var source := host.runs[record.recoveryOf.value];
    forall run | run in Lineage(source)
      ensures Bound(r, run) == Some(scope)
    {
      assert (source.id, run) in EdgesOf(source);
      assert (source.id, run) in AdmissionEdges(host, record);
    }
    OriginsFollow(r, source, scope);
  }

  /** An operation outside any run: a scope of its own, under the limits its caller asks for. */
  function PrepareOperation(budgets: Registry, operation: string, limits: Option<Limits>, o: Opening, allowed: Allowance): Result<Candidate> {
    match PrepareBinding(budgets, operation, [], o, allowed)
    case Err => Err
    case Ok(c) => if limits.None? then Ok(c) else TightenCandidate(c, limits.value)
  }

  lemma PrepareOperationKeeps(budgets: Registry, operation: string, limits: Option<Limits>, o: Opening, allowed: Allowance)
    requires Valid(budgets) && o.id !in budgets.scopes && PrepareOperation(budgets, operation, limits, o, allowed).Ok?
    ensures var c := PrepareOperation(budgets, operation, limits, o, allowed).value;
      && Retains(c.registry, budgets) && c.expectedGeneration == budgets.generation
      && c.binding.runId == operation && Bound(c.registry, operation) == Some(c.binding.scopeId)
      && c.binding.scopeId in c.registry.scopes && c.registry.scopes[c.binding.scopeId].rootRunId == operation
      && (limits.Some? ==> Within(c.registry.scopes[c.binding.scopeId].limits, limits.value))
  {
    PrepareBindingKeeps(budgets, operation, [], o, allowed);
    var c := PrepareBinding(budgets, operation, [], o, allowed).value;
    if limits.Some? {
      OperationTightened(budgets, c, limits.value);
    }
  }

  lemma OperationTightened(budgets: Registry, c: Candidate, limits: Limits)
    requires Retains(c.registry, budgets) && TightenCandidate(c, limits).Ok? && c.binding.scopeId in c.registry.scopes
    ensures var t, id := TightenCandidate(c, limits).value, c.binding.scopeId;
      && Retains(t.registry, budgets) && Tightened(t, c) && id in t.registry.scopes
      && Within(t.registry.scopes[id].limits, limits) && t.registry.scopes[id].rootRunId == c.registry.scopes[id].rootRunId
  {
    TightenCandidateKeeps(c, limits);
    var t, id := TightenCandidate(c, limits).value, c.binding.scopeId;
    RetainsTransitive(t.registry, c.registry, budgets);
    TightenUncheckedScope(c, limits);
    ValidScopeOf(c.registry, id);
    TightenScopeKeeps(c.registry.scopes[id], limits);
  }

  // ---------------------------------------------------------------- publication

  /**
   All that publication needs of a registry: what is valid, which scope a run is bound to, and when one
   registry retains the evidence of another.
   */
  datatype Evidence<!R(!new)> = Evidence(
    valid: R -> bool, generation: R -> nat, bound: (R, string) -> Option<string>, retains: (R, R) -> bool)

  ghost predicate Lawful<R(!new)>(e: Evidence<R>) {
    && (forall r | e.valid(r) :: e.retains(r, r))
    && (forall a, b | e.retains(a, b) :: e.valid(a))
    && (forall a, b, c | e.retains(a, b) && e.retains(b, c) :: e.retains(a, c))
    && (forall a, b, run | e.retains(a, b) && e.bound(b, run).Some? :: e.bound(a, run) == e.bound(b, run))
  }

  const REGISTRY: Evidence<Registry> :=
    Evidence((r: Registry) => Valid(r), (r: Registry) => r.generation, (r: Registry, run: string) => Bound(r, run),
             (a: Registry, b: Registry) => Retains(a, b))

  lemma RegistryIsLawful()
    ensures Lawful(REGISTRY)
  {
    forall r | REGISTRY.valid(r)
      ensures REGISTRY.retains(r, r)
    {
      RetainsReflexive(r);
    }
    forall a, b, c | REGISTRY.retains(a, b) && REGISTRY.retains(b, c)
      ensures REGISTRY.retains(a, c)
    {
      RetainsTransitive(a, b, c);
    }
    forall a, b, run | REGISTRY.retains(a, b) && REGISTRY.bound(b, run).Some?
      ensures REGISTRY.bound(a, run) == REGISTRY.bound(b, run)
    {
      BoundRetained(a, b, run);
    }
  }

  predicate Knows<R(!new)>(e: Evidence<R>, r: R, edge: (string, string)) {
    e.bound(r, edge.0).Some? && e.bound(r, edge.1).Some?
  }

  /** A run and its source are bound to the same scope wherever both are bound. */
  ghost predicate SharedScopes<R(!new)>(e: Evidence<R>, r: R, edges: Edges) {
    forall edge | edge in edges && Knows(e, r, edge) :: e.bound(r, edge.1) == e.bound(r, edge.0)
  }

  datatype Publication<R> = Publication(expectedGeneration: nat, registry: R, scopeId: string, runId: string)

  /** The shared accounting of one process and the copy that survives it. */
  class BudgetState<R(!new)> {
    const evidence: Evidence<R>
    var live: R
    var durable: R
    var failures: set<string>
    ghost var seen: seq<R>            // the live registry at the end of every transaction since start-up
    ghost var edges: Edges            // run and lineage source of every admission published

    ghost predicate Valid()
      reads this
    {
      && Lawful(evidence) && evidence.valid(live) && evidence.valid(durable) && evidence.retains(live, durable)
      && (forall i | 0 <= i < |seen| :: evidence.retains(live, seen[i]))
      && SharedScopes(evidence, live, edges) && SharedScopes(evidence, durable, edges)
      && forall edge | edge in edges :: Knows(evidence, live, edge)
    }

    /** A start-up from the durable copy; nothing is latched. */
    constructor (evidence: Evidence<R>, saved: R)
      requires Lawful(evidence) && evidence.valid(saved)
      ensures Valid() && this.evidence == evidence && live == saved && durable == saved
      ensures failures == {} && seen == [saved] && edges == {}
    {
      this.evidence := evidence;
      live, durable, failures, seen, edges := saved, saved, {}, [saved], {};
    }

    /**
     Saves and publishes an admission under the transaction. A save that fails, with or without effect,
     or panics still publishes the candidate, because it may already be canonical, and closes the scope.
     */
    method SaveAdmission(p: Publication<R>, ghost added: Edges) returns (ok: bool)
      requires Valid()
      requires p.expectedGeneration == evidence.generation(live) ==>
        evidence.retains(p.registry, live) && evidence.bound(p.registry, p.runId) == Some(p.scopeId)
      requires p.expectedGeneration == evidence.generation(live) ==>
        forall edge | edge in added :: Knows(evidence, p.registry, edge) && evidence.bound(p.registry, edge.1) == evidence.bound(p.registry, edge.0)
      modifies this
      ensures Valid()
      ensures p.expectedGeneration != evidence.generation(old(live)) ==> !ok && unchanged(this)
      ensures p.expectedGeneration == evidence.generation(old(live)) ==>
        && live == p.registry && seen == old(seen) + [live]
        && edges == old(edges) + added
        && (ok ==> durable == live && failures == old(failures))
        && (!ok ==> (durable == old(durable) || durable == live) && failures == old(failures) + {p.scopeId})
    {
      if !evidence.valid(p.registry) || evidence.generation(live) != p.expectedGeneration {
        return false;
      }
      var acknowledged, applied := *, *;
      if acknowledged || applied {
        durable := p.registry;
      }
      live := p.registry;
      if !acknowledged {
        failures := failures + {p.scopeId};
      }
      seen := seen + [live];
      edges := edges + added;
      ok := acknowledged;
    }

    /** An ordinary snapshot writes the live registry, or fails with or without effect. */
    method SaveSnapshot() returns (ok: bool)
      requires Valid()
      modifies this`durable
      ensures Valid() && (durable == live || durable == old(durable)) && (ok ==> durable == live)
    {
      var acknowledged, applied := *, *;
      if acknowledged || applied {
        durable := live;
      }
      ok := acknowledged;
    }

    /** A restart continues from the durable copy; lineages it knows still share their scope. */
    method Restart()
      requires Valid()
      modifies this
      ensures Valid() && live == durable == old(durable) && failures == {} && seen == [live]
      ensures edges == set edge | edge in old(edges) && Knows(evidence, live, edge)
    {
      live, failures, seen := durable, {}, [durable];
      edges := set edge | edge in edges && Knows(evidence, live, edge);
    }

    /** In every state, along any chain of admissions, a run and its ancestor share one scope. */
    lemma {:induction false} DescendantsShareScope(path: seq<string>)
      requires Valid() && |path| >= 2
      requires forall i | 0 < i < |path| :: (path[i - 1], path[i]) in edges
      ensures evidence.bound(live, path[0]).Some?
      ensures evidence.bound(live, path[|path| - 1]) == evidence.bound(live, path[0])
      decreases |path|
    {
      assert (path[1 - 1], path[1]) in edges;
      if |path| > 2 {
        var rest := path[1..];
        forall i | 0 < i < |rest|
          ensures (rest[i - 1], rest[i]) in edges
        {
          assert (path[i + 1 - 1], path[i + 1]) in edges;
        }
        DescendantsShareScope(rest);
      }
    }
  }

  /** What admission prepares from the live registry is what publication asks for. */
  lemma AdmissionIsPublishable(host: Host, record: RunRecord, adopted: Opening, o: Opening, allowed: Allowance)
    requires Valid(host.budgets) && adopted.id !in host.budgets.scopes && o.id !in host.budgets.scopes && adopted.id != o.id
    requires PrepareRun(host, record, adopted, o, allowed).Ok?
    ensures Publishable(PrepareRun(host, record, adopted, o, allowed).value, host.budgets, AdmissionEdges(host, record))
  {
    PrepareRunKeeps(host, record, adopted, o, allowed);
    TogetherKnown(PrepareRun(host, record, adopted, o, allowed).value.registry, AdmissionEdges(host, record));
  }

  lemma AdmissionFacts(host: Host, record: RunRecord, adopted: Opening, o: Opening, allowed: Allowance)
    requires Valid(host.budgets) && adopted.id !in host.budgets.scopes && o.id !in host.budgets.scopes && adopted.id != o.id
    requires PrepareRun(host, record, adopted, o, allowed).Ok?
    ensures var c := PrepareRun(host, record, adopted, o, allowed).value;
      Placed(host, record, c) && Governed(host, record, c) && c.binding.scopeId !in host.failures
    ensures OriginsRecorded(AdmissionEdges(host, record), record)
    ensures Adopts(host, record) ==> OriginsRecorded(AdmissionEdges(host, record), host.runs[record.recoveryOf.value])
  {
    PrepareRunKeeps(host, record, adopted, o, allowed);
    EdgesRecordOrigins(record);
    if Adopts(host, record) { EdgesRecordOrigins(host.runs[record.recoveryOf.value]); }
  }

  /** What admission refuses: an unowned profile, a recovery source that is unknown or left evidence, a run that already did. */
  lemma AdmissionRefuses(host: Host, record: RunRecord, adopted: Opening, o: Opening, allowed: Allowance)
    ensures !host.owned ==> PrepareRun(host, record, adopted, o, allowed).Err?
    ensures record.recoveryOf.Some? && record.recoveryOf.value !in host.budgets.runScopes && record.recoveryOf.value !in host.runs ==>
      PrepareRun(host, record, adopted, o, allowed).Err?
    ensures Adopts(host, record) && host.runs[record.recoveryOf.value].started ==> PrepareRun(host, record, adopted, o, allowed).Err?
    ensures (&& !Adopts(host, record) && record.id !in host.budgets.runScopes
             && record.id in host.runs && host.runs[record.id].started) ==> PrepareRun(host, record, adopted, o, allowed).Err?
  {
  }

  lemma NeverLatched(host: Host, record: RunRecord, adopted: Opening, o: Opening, allowed: Allowance)
    requires PrepareRun(host, record, adopted, o, allowed).Ok?
    ensures PrepareRun(host, record, adopted, o, allowed).value.binding.scopeId !in host.failures
  {
  }

  lemma TogetherKnown(r: Registry, edges: Edges)
    requires Together(r, edges)
    ensures forall edge | edge in edges :: Knows(REGISTRY, r, edge) && REGISTRY.bound(r, edge.1) == REGISTRY.bound(r, edge.0)
  {
    forall edge | edge in edges
      ensures Knows(REGISTRY, r, edge) && REGISTRY.bound(r, edge.1) == REGISTRY.bound(r, edge.0)
    {
      assert Bound(r, edge.0).Some? && Bound(r, edge.1) == Bound(r, edge.0);
    }
  }

  /** All that publishing a candidate relies on, in the terms of the registry's evidence. */
  ghost predicate Publishable(c: Candidate, budgets: Registry, edges: Edges) {
    && c.expectedGeneration == REGISTRY.generation(budgets)
    && REGISTRY.retains(c.registry, budgets)
    && REGISTRY.bound(c.registry, c.binding.runId) == Some(c.binding.scopeId)
    && forall edge | edge in edges :: Knows(REGISTRY, c.registry, edge) && REGISTRY.bound(c.registry, edge.1) == REGISTRY.bound(c.registry, edge.0)
  }

  lemma OperationIsPublishable(budgets: Registry, operation: string, limits: Option<Limits>, o: Opening, allowed: Allowance)
    requires Valid(budgets) && o.id !in budgets.scopes && PrepareOperation(budgets, operation, limits, o, allowed).Ok?
    ensures Publishable(PrepareOperation(budgets, operation, limits, o, allowed).value, budgets, {})
  {
    PrepareOperationKeeps(budgets, operation, limits, o, allowed);
  }

  /** Saves and publishes a candidate prepared from the live registry: nothing is lost, whatever becomes of the write. */
  method Publish(b: BudgetState<Registry>, c: Candidate, ghost added: Edges) returns (ok: bool)
    requires b.Valid() && b.evidence == REGISTRY && Publishable(c, b.live, added)
    modifies b
    ensures b.Valid() && b.live == c.registry && b.edges == old(b.edges) + added && b.seen == old(b.seen) + [b.live]
    ensures Retains(b.live, old(b.live)) && Retains(b.live, b.durable)
    ensures ok ==> b.durable == b.live && b.failures == old(b.failures)
    ensures !ok ==> (b.durable == old(b.durable) || b.durable == b.live) && b.failures == old(b.failures) + {c.binding.scopeId}
  {
    ok := b.SaveAdmission(Publication(c.expectedGeneration, c.registry, c.binding.scopeId, c.binding.runId), added);
  }

  /** Publishes what could be prepared; a refused preparation changes nothing. */
  method PublishPrepared(b: BudgetState<Registry>, prepared: Result<Candidate>, ghost added: Edges) returns (saved: bool)
    requires b.Valid() && b.evidence == REGISTRY && (prepared.Ok? ==> Publishable(prepared.value, b.live, added))
    modifies b
    ensures b.Valid() && Retains(b.live, old(b.live)) && Retains(b.live, b.durable)
    ensures prepared.Err? ==> !saved && unchanged(b)
    ensures prepared.Ok? ==> b.live == prepared.value.registry && b.edges == old(b.edges) + added
    ensures prepared.Ok? && !saved ==> prepared.value.binding.scopeId in b.failures
    ensures saved ==> b.durable == b.live
  {
    saved := false;
    if prepared.Ok? {
      saved := Publish(b, prepared.value, added);
    } else {
      RetainsReflexive(b.live);
    }
  }

  /** The admission of a run: prepared from the live registry and published under one transaction. */
  method AdmitRun(b: BudgetState<Registry>, host: Host, record: RunRecord, adopted: Opening, o: Opening, allowed: Allowance)
    returns (admitted: Result<Candidate>, saved: bool)
    requires b.Valid() && b.evidence == REGISTRY && host.budgets == b.live && host.failures == b.failures
    requires adopted.id !in b.live.scopes && o.id !in b.live.scopes && adopted.id != o.id
    modifies b
    ensures admitted == PrepareRun(host, record, adopted, o, allowed)
    ensures admitted.Ok? ==> admitted.value.binding.scopeId !in old(b.failures)
    ensures admitted.Ok? ==> Placed(host, record, admitted.value) && Governed(host, record, admitted.value)
    ensures admitted.Ok? ==> OriginsRecorded(b.edges, record)
    ensures admitted.Ok? && Adopts(host, record) ==> OriginsRecorded(b.edges, host.runs[record.recoveryOf.value])
    ensures b.Valid() && Retains(b.live, old(b.live)) && Retains(b.live, b.durable)
    ensures admitted.Err? ==> !saved && unchanged(b)
    ensures admitted.Ok? ==> b.live == admitted.value.registry && b.edges == old(b.edges) + AdmissionEdges(host, record)
    ensures admitted.Ok? && !saved ==> admitted.value.binding.scopeId in b.failures
    ensures saved ==> b.durable == b.live
  {
    admitted := PrepareRun(host, record, adopted, o, allowed);
    if admitted.Ok? {
      AdmissionIsPublishable(host, record, adopted, o, allowed);
      AdmissionFacts(host, record, adopted, o, allowed);
    }
    saved := PublishPrepared(b, admitted, AdmissionEdges(host, record));
  }

  /** The admission of an operation outside any run. */
  method AdmitOperation(b: BudgetState<Registry>, operation: string, limits: Option<Limits>, o: Opening, allowed: Allowance)
    returns (admitted: Result<Candidate>, saved: bool)
    requires b.Valid() && b.evidence == REGISTRY && o.id !in b.live.scopes
    modifies b
    ensures admitted == PrepareOperation(old(b.live), operation, limits, o, allowed)
    ensures b.Valid() && Retains(b.live, old(b.live)) && Retains(b.live, b.durable)
    ensures admitted.Err? ==> !saved && unchanged(b)
    ensures admitted.Ok? ==> b.live == admitted.value.registry && b.edges == old(b.edges) + {}
    ensures admitted.Ok? && !saved ==> admitted.value.binding.scopeId in b.failures
    ensures saved ==> b.durable == b.live
  {
    admitted := PrepareOperation(b.live, operation, limits, o, allowed);
    if admitted.Ok? { OperationIsPublishable(b.live, operation, limits, o, allowed); }
    saved := PublishPrepared(b, admitted, {});
  }
}
