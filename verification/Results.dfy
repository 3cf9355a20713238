/**
 Saved results of a conversation: revision-checked upserts that replay safely, pins, and the check every saved
 session passes. The size of the serialized results, the check of one result's texts and payload, and the
 digest that names a created result are parameters of the session.
 */
module Results {
  import opened Wrappers

  const MAX_RESULTS: nat := 32
  const MAX_SESSION_BYTES: nat := 262144
  const MAX_REVISION: nat := 9_007_199_254_740_991

  /** What an owner sees of a result. */
  datatype Content<P> = Content(title: string, payload: P)

  datatype ChatResult<P> = ChatResult(id: string, revision: nat, agent: string, session: string, generation: nat,
                                      content: Content<P>, pinned: bool, created: nat, updated: nat,
                                      run: string, call: string, key: string)

  datatype Input<P> = Input(id: Option<string>, expected: nat, key: string, content: Content<P>)

  datatype Session<!P> = Session(agent: string, id: string, generation: nat,
                                 wellFormed: (Content<P>, string, string, string) -> bool,
                                 size: seq<ChatResult<P>> -> nat,
                                 identity: (string, string) -> string)

  predicate ResultOk<P>(s: Session<P>, r: ChatResult<P>) {
    && 0 < r.revision <= MAX_REVISION
    && r.agent == s.agent && r.session == s.id && r.generation == s.generation
    && r.created <= r.updated
    && s.wellFormed(r.content, r.key, r.run, r.call)
  }

  predicate DistinctIds<P>(results: seq<ChatResult<P>>) {
    forall i, k | 0 <= i < k < |results| :: results[i].id != results[k].id
  }

  /** The check of a whole session before and after every change. */
  predicate SessionOk<P>(s: Session<P>, results: seq<ChatResult<P>>) {
    && |results| <= MAX_RESULTS
    && s.size(results) <= MAX_SESSION_BYTES
    && DistinctIds(results)
    && forall i | 0 <= i < |results| :: ResultOk(s, results[i])
  }

  /** Each (request key, source run) pair belongs to one result. */
  ghost predicate DistinctRequests<P>(results: seq<ChatResult<P>>) {
    forall i, k | 0 <= i < k < |results| :: results[i].key != results[k].key || results[i].run != results[k].run
  }

  function Find<P>(results: seq<ChatResult<P>>, id: string): (k: Option<nat>)
    ensures k.Some? ==> k.value < |results| && results[k.value].id == id
    ensures k.None? ==> forall i | 0 <= i < |results| :: results[i].id != id
  {
    if results == [] then None
    else if results[0].id == id then Some(0)
    else
      assert forall i | 0 < i < |results| :: results[i] == results[1..][i - 1];
      match Find(results[1..], id)
      case None => None
      case Some(k) => Some(k + 1)
  }

  function FindRequest<P>(results: seq<ChatResult<P>>, key: string, run: string): (k: Option<nat>)
    ensures k.Some? ==> k.value < |results| && results[k.value].key == key && results[k.value].run == run
    ensures k.None? ==> forall i | 0 <= i < |results| :: results[i].key != key || results[i].run != run
  {
    if results == [] then None
    else if results[0].key == key && results[0].run == run then Some(0)
    else
      assert forall i | 0 < i < |results| :: results[i] == results[1..][i - 1];
      match FindRequest(results[1..], key, run)
      case None => None
      case Some(k) => Some(k + 1)
  }

  function Later(a: nat, b: nat): nat { if a < b then b else a }

  function Updated<P>(r: ChatResult<P>, input: Input<P>, run: string, call: string, now: nat): ChatResult<P> {
    r.(revision := r.revision + 1, content := input.content, key := input.key, run := run, call := call, updated := Later(r.updated, now))
  }

  function Created<P>(s: Session<P>, input: Input<P>, run: string, call: string, now: nat): ChatResult<P> {
    ChatResult(s.identity(run, input.key), 1, s.agent, s.id, s.generation, input.content, false, now, now, run, call, input.key)
  }

  datatype Outcome<P> = Outcome(results: seq<ChatResult<P>>, answer: Result<ChatResult<P>>)

  /** An earlier result that answers this request without a change, or refuses it; None if the request is new. */
  function Replay<P(==)>(s: Session<P>, results: seq<ChatResult<P>>, input: Input<P>, run: string): Option<Result<ChatResult<P>>> {
    var created := Find(results, s.identity(run, input.key));
    if input.id.None? && created.Some? then
      Some(if results[created.value].content == input.content then Ok(results[created.value]) else Err)
    else
      var replay := FindRequest(results, input.key, run);
      if replay.None? then None
      else
        var r := results[replay.value];
        Some(if (input.id.Some? ==> input.id.value == r.id) && r.content == input.content then Ok(r) else Err)
  }

  /** The state and the answer of an upsert. */
  function Upsert<P(==)>(s: Session<P>, results: seq<ChatResult<P>>, input: Input<P>, run: string, call: string, now: nat): Outcome<P> {
    if !SessionOk(s, results) || !s.wellFormed(input.content, input.key, run, call) || (input.id.None? && input.expected != 0) then
      Outcome(results, Err)
    else
      var replay := Replay(s, results, input, run);
      if replay.Some? then Outcome(results, replay.value)
      else
        var changed := Change(s, results, input, run, call, now);
        if changed.answer.Ok? && SessionOk(s, changed.results) then changed else Outcome(results, Err)
  }

  /** The change itself, before the session is checked again. */
  function Change<P(==)>(s: Session<P>, results: seq<ChatResult<P>>, input: Input<P>, run: string, call: string, now: nat): Outcome<P> {
    if input.id.None? then
      Outcome(results + [Created(s, input, run, call, now)], Ok(Created(s, input, run, call, now)))
    else
      var k := Find(results, input.id.value);
      if k.None? || results[k.value].revision != input.expected then Outcome(results, Err)
      else
        var r := Updated(results[k.value], input, run, call, now);
        Outcome(results[k.value := r], Ok(r))
  }

  function Pin<P>(s: Session<P>, results: seq<ChatResult<P>>, id: string, revision: nat, pinned: bool, now: nat): Outcome<P> {
    if !SessionOk(s, results) then Outcome(results, Err)
    else
      var k := Find(results, id);
      if k.None? || results[k.value].revision != revision || revision + 1 > MAX_REVISION then Outcome(results, Err)
      else
        var r := results[k.value].(revision := revision + 1, pinned := pinned, updated := Later(results[k.value].updated, now));
        Outcome(results[k.value := r], Ok(r))
  }

  // ---- What upserts and pins promise ----

  /** A failed upsert changes nothing; a successful one leaves a session that passes the check and holds the answer. */
  lemma UpsertChecks<P>(s: Session<P>, results: seq<ChatResult<P>>, input: Input<P>, run: string, call: string, now: nat)
    ensures var o := Upsert(s, results, input, run, call, now);
      && (o.answer.Err? ==> o.results == results)
      && (o.answer.Ok? ==> SessionOk(s, o.results) && o.answer.value in o.results && o.answer.value.content == input.content
                           && |o.results| <= 32 && s.size(o.results) <= 262144)
  {
    var changed := Change(s, results, input, run, call, now);
    if changed.answer.Ok? {
      var k := if input.id.None? then |results| else Find(results, input.id.value).value;
      assert changed.results[k] == changed.answer.value;
    }
  }

  /** An update is accepted against the current revision only, raises it by one, and leaves every other result alone. */
  lemma UpdateWrites<P>(s: Session<P>, results: seq<ChatResult<P>>, input: Input<P>, run: string, call: string, now: nat)
    requires input.id.Some? && Replay(s, results, input, run).None?
    ensures Upsert(s, results, input, run, call, now).answer.Ok? ==>
      var o, k := Upsert(s, results, input, run, call, now), Find(results, input.id.value);
      && k.Some? && results[k.value].revision == input.expected
      && o.answer.value.revision == input.expected + 1 && o.answer.value.id == input.id.value
      && o.answer.value.content == input.content && o.answer.value.key == input.key
      && o.answer.value.run == run && o.answer.value.call == call
      && o.answer.value.pinned == results[k.value].pinned && o.answer.value.created == results[k.value].created
      && now <= o.answer.value.updated && results[k.value].updated <= o.answer.value.updated
      && |o.results| == |results| && o.results[k.value] == o.answer.value
      && (forall i | 0 <= i < |results| && i != k.value :: o.results[i] == results[i])
    ensures (forall r | r in results && r.id == input.id.value :: r.revision != input.expected) ==>
      Upsert(s, results, input, run, call, now).answer.Err?
    ensures (&& SessionOk(s, results) && s.wellFormed(input.content, input.key, run, call)
             && Change(s, results, input, run, call, now).answer.Ok? && SessionOk(s, Change(s, results, input, run, call, now).results))
            <==> Upsert(s, results, input, run, call, now).answer.Ok?
    ensures Change(s, results, input, run, call, now).answer.Ok? <==>
      Find(results, input.id.value).Some? && results[Find(results, input.id.value).value].revision == input.expected
  {
  }

  /** A new request without an id adds one result, unpinned and at revision one, under the name its digest gives. */
  lemma CreateWrites<P>(s: Session<P>, results: seq<ChatResult<P>>, input: Input<P>, run: string, call: string, now: nat)
    requires input.id.None? && Replay(s, results, input, run).None?
    ensures Upsert(s, results, input, run, call, now).answer.Ok? ==>
      var o := Upsert(s, results, input, run, call, now);
      && input.expected == 0 && o.results == results + [o.answer.value]
      && o.answer.value.id == s.identity(run, input.key) && o.answer.value.revision == 1 && !o.answer.value.pinned
      && o.answer.value.content == input.content && o.answer.value.key == input.key
      && o.answer.value.run == run && o.answer.value.call == call && o.answer.value.created == o.answer.value.updated == now
    ensures input.expected != 0 ==> Upsert(s, results, input, run, call, now).answer.Err?
  {
  }

  /** A pin is accepted against the current revision only, raises it by one and changes nothing of the content. */
  lemma PinWrites<P>(s: Session<P>, results: seq<ChatResult<P>>, id: string, revision: nat, pinned: bool, now: nat)
    ensures Pin(s, results, id, revision, pinned, now).answer.Ok? <==>
      && SessionOk(s, results) && revision < MAX_REVISION && Find(results, id).Some?
      && results[Find(results, id).value].revision == revision
    ensures Pin(s, results, id, revision, pinned, now).answer.Ok? ==>
      var o, k := Pin(s, results, id, revision, pinned, now), Find(results, id).value;
      && o.answer.value.revision == revision + 1 && o.answer.value.pinned == pinned
      && o.answer.value.content == results[k].content && o.answer.value.id == id
      && o.answer.value.key == results[k].key && o.answer.value.run == results[k].run
      && now <= o.answer.value.updated && results[k].updated <= o.answer.value.updated
      && |o.results| == |results| && o.results[k] == o.answer.value
      && (forall i | 0 <= i < |results| && i != k :: o.results[i] == results[i])
  {
  }

  /** A request that names another result, or other content, than the one on record for it is refused. */
  lemma ReplayAnswers<P>(s: Session<P>, results: seq<ChatResult<P>>, input: Input<P>, run: string, call: string, now: nat)
    requires Replay(s, results, input, run).Some? && Upsert(s, results, input, run, call, now).answer.Ok?
    ensures var o := Upsert(s, results, input, run, call, now);
      && o.results == results && o.answer.value in results && o.answer.value.content == input.content
      && (input.id.Some? ==> o.answer.value.id == input.id.value)
      && (o.answer.value.id == s.identity(run, input.key) || (o.answer.value.key == input.key && o.answer.value.run == run))
  {
  }

  /** Every upsert keeps the request pairs distinct. */
  lemma UpsertKeepsRequests<P>(s: Session<P>, results: seq<ChatResult<P>>, input: Input<P>, run: string, call: string, now: nat)
    requires DistinctRequests(results)
    ensures DistinctRequests(Upsert(s, results, input, run, call, now).results)
  {
    var replay := Replay(s, results, input, run);
    if replay.None? {
      assert forall i | 0 <= i < |results| :: results[i].key != input.key || results[i].run != run;
    }
  }

  lemma PinKeeps<P>(s: Session<P>, results: seq<ChatResult<P>>, id: string, revision: nat, pinned: bool, now: nat)
    requires DistinctRequests(results)
    ensures var o := Pin(s, results, id, revision, pinned, now);
      && DistinctRequests(o.results)
      && (o.answer.Err? ==> o.results == results)
      && (o.answer.Ok? ==> DistinctIds(o.results) && (forall i | 0 <= i < |o.results| :: ResultOk(s, o.results[i])) && |o.results| <= MAX_RESULTS)
  {
  }

  /** Repeating a successful upsert at once, at any later time and from any call, gives the same answer and changes nothing. */
  lemma UpsertReplays<P>(s: Session<P>, results: seq<ChatResult<P>>, input: Input<P>, run: string, call: string, now: nat,
                         call': string, now': nat)
    requires DistinctRequests(results) && Upsert(s, results, input, run, call, now).answer.Ok?
    requires s.wellFormed(input.content, input.key, run, call')
    ensures var o := Upsert(s, results, input, run, call, now);
      Upsert(s, o.results, input, run, call', now') == o
  {
    var o := Upsert(s, results, input, run, call, now);
    UpsertKeepsRequests(s, results, input, run, call, now);
    if Replay(s, results, input, run).None? {
      ReplayAfterChange(s, results, input, run, call, now);
    }
  }

  lemma ReplayAfterChange<P>(s: Session<P>, results: seq<ChatResult<P>>, input: Input<P>, run: string, call: string, now: nat)
    requires SessionOk(s, results) && Replay(s, results, input, run).None?
    requires Change(s, results, input, run, call, now).answer.Ok?
    requires DistinctIds(Change(s, results, input, run, call, now).results)
    requires DistinctRequests(Change(s, results, input, run, call, now).results)
    ensures var o := Change(s, results, input, run, call, now);
      Replay(s, o.results, input, run) == Some(o.answer)
  {
    var o := Change(s, results, input, run, call, now);
    var k := if input.id.None? then |results| else Find(results, input.id.value).value;
    assert o.results[k] == o.answer.value;
    if input.id.None? {
      assert Find(o.results, s.identity(run, input.key)).Some?;
    } else {
      assert FindRequest(o.results, input.key, run).Some?;
    }
  }

  // ---- Whole runs ----

  datatype Step<P> =
    | Saving(input: Input<P>, run: string, call: string, now: nat)
    | Pinning(id: string, revision: nat, pinned: bool, now: nat)

  function After<P(==)>(s: Session<P>, results: seq<ChatResult<P>>, step: Step<P>): seq<ChatResult<P>> {
    match step
    case Saving(input, run, call, now) => Upsert(s, results, input, run, call, now).results
    case Pinning(id, revision, pinned, now) => Pin(s, results, id, revision, pinned, now).results
  }

  function AfterAll<P(==)>(s: Session<P>, results: seq<ChatResult<P>>, steps: seq<Step<P>>): seq<ChatResult<P>>
    decreases |steps|
  {
    if steps == [] then results else AfterAll(s, After(s, results, steps[0]), steps[1..])
  }

  /** No upsert and no pin removes a result or renames it. */
  lemma IdStays<P>(s: Session<P>, results: seq<ChatResult<P>>, step: Step<P>, id: string)
    requires Find(results, id).Some?
    ensures Find(After(s, results, step), id).Some?
  {
    var k, after := Find(results, id).value, After(s, results, step);
    assert |after| >= |results| && after[k].id == id;
  }

  lemma {:induction false} IdStaysForever<P>(s: Session<P>, results: seq<ChatResult<P>>, steps: seq<Step<P>>, id: string)
    requires Find(results, id).Some?
    ensures Find(AfterAll(s, results, steps), id).Some?
    decreases |steps|
  {
    if steps != [] {
      IdStays(s, results, steps[0], id);
      IdStaysForever(s, After(s, results, steps[0]), steps[1..], id);
    }
  }

  /**
   A create request that was answered with the result it names never adds a second one: after any upserts and pins
   it is answered with that result or refused, and changes nothing.
   */
  lemma CreateNeverRepeats<P>(s: Session<P>, results: seq<ChatResult<P>>, input: Input<P>, run: string, call: string, now: nat,
                              steps: seq<Step<P>>, call': string, now': nat)
    requires input.id.None? && Upsert(s, results, input, run, call, now).answer.Ok?
    requires Upsert(s, results, input, run, call, now).answer.value.id == s.identity(run, input.key)
    ensures var later := AfterAll(s, Upsert(s, results, input, run, call, now).results, steps);
      var again := Upsert(s, later, input, run, call', now');
      && again.results == later
      && (again.answer.Ok? ==> again.answer.value.id == s.identity(run, input.key))
  {
    UpsertChecks(s, results, input, run, call, now);
    var o := Upsert(s, results, input, run, call, now);
    var k :| 0 <= k < |o.results| && o.results[k] == o.answer.value;
    assert Find(o.results, s.identity(run, input.key)).Some?;
    IdStaysForever(s, o.results, steps, s.identity(run, input.key));
  }

  /**
   The condition is needed: a create request answered with the result of an earlier update is forgotten once that
   result is updated under another request, and then adds a result of its own.
   */
  lemma AnsweredByAnotherAddsLater<P>(s: Session<P>, results: seq<ChatResult<P>>, input: Input<P>, run: string, call: string, now: nat,
                                      update: Input<P>, run': string, call': string, now': nat)
    requires DistinctRequests(results) && input.id.None? && Upsert(s, results, input, run, call, now).answer.Ok?
    requires Upsert(s, results, input, run, call, now).results == results
    requires Upsert(s, results, input, run, call, now).answer.value.id != s.identity(run, input.key)
    requires update.id == Some(Upsert(s, results, input, run, call, now).answer.value.id)
    requires update.key != input.key || run' != run
    requires Replay(s, results, update, run').None? && Upsert(s, results, update, run', call', now').answer.Ok?
    requires SessionOk(s, Upsert(s, results, update, run', call', now').results + [Created(s, input, run, call, now)])
    ensures var later := Upsert(s, results, update, run', call', now').results;
      Upsert(s, later, input, run, call, now).results == later + [Created(s, input, run, call, now)]
  {
    var answer := Upsert(s, results, input, run, call, now).answer.value;
    var later := Upsert(s, results, update, run', call', now').results;
    var k := Find(results, answer.id).value;
    assert later == results[k := Updated(results[k], update, run', call', now')];
    assert Find(results, s.identity(run, input.key)).None?;
    assert Find(later, s.identity(run, input.key)).None?;
    OnlyTheAnswer(results, input.key, run, answer);
    assert FindRequest(later, input.key, run).None?;
  }

  lemma OnlyTheAnswer<P>(results: seq<ChatResult<P>>, key: string, run: string, answer: ChatResult<P>)
    requires DistinctRequests(results) && DistinctIds(results) && answer in results && answer.key == key && answer.run == run
    ensures forall i | 0 <= i < |results| && results[i].key == key && results[i].run == run :: results[i] == answer
    ensures Find(results, answer.id).Some? && results[Find(results, answer.id).value] == answer
  {
  }

  /** A conversation's results, edited in place. */
  class Conversation<P(==)> {
    const s: Session<P>
    var results: seq<ChatResult<P>>

    ghost predicate Valid()
      reads this
    {
      DistinctRequests(results)
    }

    constructor (s: Session<P>)
      ensures Valid() && this.s == s && results == []
    {
      this.s := s;
      results := [];
    }

    /** Applies the change and checks the session again; a session that fails the check is put back. */
    method Save(input: Input<P>, run: string, call: string, now: nat) returns (answer: Result<ChatResult<P>>)
      requires Valid()
      modifies this`results
      ensures Valid()
      ensures Outcome(results, answer) == Upsert(s, old(results), input, run, call, now)
    {
      UpsertKeepsRequests(s, results, input, run, call, now);
      answer := Err;
      if !SessionOk(s, results) || !s.wellFormed(input.content, input.key, run, call) || (input.id.None? && input.expected != 0) { return; }
      var replay := Replay(s, results, input, run);
      if replay.Some? { return replay.value; }
      var previous := results;
      if input.id.Some? {
        var k := Find(results, input.id.value);
        if k.None? || results[k.value].revision != input.expected { return; }
        answer := Ok(Updated(results[k.value], input, run, call, now));
        results := results[k.value := answer.value];
      } else {
        answer := Ok(Created(s, input, run, call, now));
        results := results + [answer.value];
      }
      if !SessionOk(s, results) {
        results := previous;
        answer := Err;
      }
    }

    method SetPinned(id: string, revision: nat, pinned: bool, now: nat) returns (answer: Result<ChatResult<P>>)
      requires Valid()
      modifies this`results
      ensures Valid()
      ensures Outcome(results, answer) == Pin(s, old(results), id, revision, pinned, now)
    {
      PinKeeps(s, results, id, revision, pinned, now);
      answer := Err;
      if !SessionOk(s, results) { return; }
      var k := Find(results, id);
      if k.None? || results[k.value].revision != revision || revision + 1 > MAX_REVISION { return; }
      answer := Ok(results[k.value].(revision := revision + 1, pinned := pinned, updated := Later(results[k.value].updated, now)));
      results := results[k.value := answer.value];
    }
  }
}
