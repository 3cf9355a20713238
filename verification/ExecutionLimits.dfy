/**
 Execution limits and their intersection. An optional limit that is absent is unbounded, so a budget is a
 partial map from limit names to values; limits are ordered by how much they allow, and intersecting two
 of them is the meet of that order.
 */
module ExecutionLimits {
  import opened Wrappers

  const U64_MAX: nat := 0xFFFF_FFFF_FFFF_FFFF
  const MAX_RESERVATIONS: nat := 8192

  datatype Limit =
    | WallTimeMs | InputTokens | OutputTokens | TotalTokens
    | Turns | CapabilitySteps | EstimatedCostMicros | ConcurrentRuns | ArtifactBytes | DownloadBytes
    | ApprovalAtPercent

  type Budget = map<Limit, nat>

  datatype Limits = Limits(
    budget: Budget, modelAttempts: nat, toolCalls: nat, retries: nat, inflight: nat)

  predicate ValidBudget(b: Budget) {
    && (forall l | l in b :: 0 < b[l] <= U64_MAX)
    && (ApprovalAtPercent in b ==> b[ApprovalAtPercent] <= 100)
  }

  predicate ValidLimits(x: Limits) {
    && ValidBudget(x.budget)
    && x.modelAttempts != 0 && x.modelAttempts + x.toolCalls <= MAX_RESERVATIONS
    && x.retries <= x.modelAttempts
    && 0 < x.inflight <= 256
    && WallTimeMs in x.budget && InputTokens in x.budget && OutputTokens in x.budget && TotalTokens in x.budget
  }

  function Min(a: nat, b: nat): nat {
    if a <= b then a else b
  }

  function MinBudget(a: Budget, b: Budget): Budget {
    map l | l in a.Keys + b.Keys ::
      if l in a && l in b then Min(a[l], b[l]) else if l in a then a[l] else b[l]
  }

  /** What both arguments allow. */
  function Meet(a: Limits, b: Limits): Limits {
    var attempts := Min(a.modelAttempts, b.modelAttempts);
    Limits(MinBudget(a.budget, b.budget), attempts, Min(a.toolCalls, b.toolCalls),
           Min(Min(a.retries, b.retries), attempts), Min(a.inflight, b.inflight))
  }

  function Intersect(current: Limits, limits: Limits): Result<Limits> {
    if !ValidLimits(current) || !ValidLimits(limits) then Err
    else if !ValidLimits(Meet(current, limits)) then Err
    else Ok(Meet(current, limits))
  }

  /** `a` allows nothing that `b` forbids. */
  predicate Within(a: Limits, b: Limits) {
    && a.modelAttempts <= b.modelAttempts && a.toolCalls <= b.toolCalls
    && a.retries <= b.retries && a.inflight <= b.inflight
    && forall l | l in b.budget :: l in a.budget && a.budget[l] <= b.budget[l]
  }

  lemma WithinTransitive(a: Limits, b: Limits, c: Limits)
    requires Within(a, b) && Within(b, c)
    ensures Within(a, c)
  {
    assert forall l | l in c.budget :: l in b.budget;
  }

  lemma WithinAntisymmetric(a: Limits, b: Limits)
    requires Within(a, b) && Within(b, a)
    ensures a == b
  {
    assert a.budget.Keys == b.budget.Keys;
    assert a.budget == b.budget;
  }

  /** Intersecting fails only on invalid arguments; the re-validation of the result never does. */
  lemma IntersectSucceeds(a: Limits, b: Limits)
    ensures Intersect(a, b).Ok? <==> ValidLimits(a) && ValidLimits(b)
    ensures Intersect(a, b).Ok? ==> ValidLimits(Intersect(a, b).value)
  {
  }

  /** The intersection is the most permissive limits within both whose retries fit its attempts. */
  lemma MeetIsGreatest(a: Limits, b: Limits, c: Limits)
    ensures Within(Meet(a, b), a) && Within(Meet(a, b), b) && Meet(a, b).retries <= Meet(a, b).modelAttempts
    ensures c.retries <= c.modelAttempts && Within(c, a) && Within(c, b) ==> Within(c, Meet(a, b))
  {
    if c.retries <= c.modelAttempts && Within(c, a) && Within(c, b) {
      assert forall l | l in a.budget :: l in c.budget && c.budget[l] <= a.budget[l];
      assert forall l | l in b.budget :: l in c.budget && c.budget[l] <= b.budget[l];
    }
  }

  lemma MeetCommutes(a: Limits, b: Limits)
    ensures Meet(a, b) == Meet(b, a)
  {
    assert MinBudget(a.budget, b.budget) == MinBudget(b.budget, a.budget);
  }

  lemma MeetAssociates(a: Limits, b: Limits, c: Limits)
    ensures Meet(Meet(a, b), c) == Meet(a, Meet(b, c))
  {
    var x, y := Meet(Meet(a, b), c), Meet(a, Meet(b, c));
    MeetIsGreatest(Meet(a, b), c, y);
    MeetIsGreatest(a, b, y);
    MeetIsGreatest(a, Meet(b, c), x);
    MeetIsGreatest(b, c, x);
    WithinTransitive(x, Meet(a, b), a);
    WithinTransitive(x, Meet(a, b), b);
    WithinTransitive(y, Meet(b, c), b);
    WithinTransitive(y, Meet(b, c), c);
    WithinAntisymmetric(x, y);
  }

  /** Limits already applied change nothing when applied again. */
  lemma MeetAbsorbs(a: Limits, b: Limits)
    requires a.retries <= a.modelAttempts && Within(a, b)
    ensures Meet(a, b) == a
  {
    assert MinBudget(a.budget, b.budget) == a.budget;
  }

  function MeetAll(start: Limits, more: seq<Limits>): Limits
    decreases |more|
  {
    if more == [] then start else MeetAll(Meet(start, more[0]), more[1..])
  }

  lemma {:induction false} MeetAllIsGreatest(start: Limits, more: seq<Limits>, c: Limits)
    requires start.retries <= start.modelAttempts
    ensures Within(MeetAll(start, more), start)
    ensures forall i | 0 <= i < |more| :: Within(MeetAll(start, more), more[i])
    ensures MeetAll(start, more).retries <= MeetAll(start, more).modelAttempts
    ensures c.retries <= c.modelAttempts && Within(c, start) && (forall i | 0 <= i < |more| :: Within(c, more[i]))
            ==> Within(c, MeetAll(start, more))
    decreases |more|
  {
    if more != [] {
      var next := Meet(start, more[0]);
      MeetIsGreatest(start, more[0], c);
      MeetAllIsGreatest(next, more[1..], c);
      WithinTransitive(MeetAll(start, more), next, start);
      WithinTransitive(MeetAll(start, more), next, more[0]);
      forall i | 0 <= i < |more|
        ensures Within(MeetAll(start, more), more[i])
      {
        assert i > 0 ==> more[i] == more[1..][i - 1];
      }
    }
  }

  /** The order, and any repetition, of the limits applied does not matter. */
  lemma MeetAllOrderFree(start: Limits, xs: seq<Limits>, ys: seq<Limits>)
    requires start.retries <= start.modelAttempts
    requires forall x :: x in xs <==> x in ys
    ensures MeetAll(start, xs) == MeetAll(start, ys)
  {
    var a, b := MeetAll(start, xs), MeetAll(start, ys);
    MeetAllIsGreatest(start, xs, b);
    MeetAllIsGreatest(start, ys, a);
    forall i | 0 <= i < |ys| ensures Within(a, ys[i]) {
      assert ys[i] in xs;
    }
    forall i | 0 <= i < |xs| ensures Within(b, xs[i]) {
      assert xs[i] in ys;
    }
    WithinAntisymmetric(a, b);
  }

  // ---------------------------------------------------------------- defaults

  const DEFAULT_LIMITS: Limits :=
    Limits(map[WallTimeMs := 30 * 60 * 1000, InputTokens := 4_000_000, OutputTokens := 262_144, TotalTokens := 4_262_144],
           96, 192, 24, 16)

  lemma DefaultLimitsAreValid()
    ensures ValidLimits(DEFAULT_LIMITS)
  {
  }
}
