/**
 Reference-counted lock registries: the room locks (a mutex, capacity 1) and the agent slots (a semaphore)
 of the run coordinator. Each method is one atomic step of some task; tasks interleave freely between steps,
 and a handle may take its steps in any order its stage allows.
 */
module Leases {
  type LockId = nat
  type HandleId = nat

  /** What a lease, finished or under construction, owns. */
  datatype Stage =
    | Plain          // one reference to the lock object
    | Doubled        // a second reference: an acquisition not yet begun, or a guard already given back
    | Waiting        // the second reference is queued for the lock
    | Holding        // the second reference is a guard or permit

  datatype Handle<K> = Handle(key: K, lock: LockId, stage: Stage)

  type Handles<K> = map<HandleId, Handle<K>>

  /** A lock object: its reference count, its free permits and its queue of waiters. */
  datatype Lock = Lock(capacity: nat, strong: nat, available: nat, queue: seq<HandleId>)

  /** The handles of one lock object in one of the given stages. */
  function At<K>(handles: Handles<K>, l: LockId, stages: set<Stage>): set<HandleId> {
    set h | h in handles && handles[h].lock == l && handles[h].stage in stages
  }

  const ANY: set<Stage> := {Plain, Doubled, Waiting, Holding}
  const TWICE: set<Stage> := {Doubled, Waiting, Holding}

  ghost predicate Distinct(queue: seq<HandleId>) {
    forall i, j | 0 <= i < j < |queue| :: queue[i] != queue[j]
  }

  /** The count is the registry's reference plus those of the handles. */
  ghost predicate Counted<K>(handles: Handles<K>, l: LockId, strong: nat) {
    strong == 1 + |At(handles, l, ANY)| + |At(handles, l, TWICE)|
  }

  /** Permits are conserved. */
  ghost predicate Conserved<K>(handles: Handles<K>, l: LockId, capacity: nat, available: nat) {
    available + |At(handles, l, {Holding})| == capacity
  }

  /** The queue is the waiting handles, each once. */
  ghost predicate Queued<K>(handles: Handles<K>, l: LockId, queue: seq<HandleId>) {
    (forall h :: h in queue <==> h in At(handles, l, {Waiting})) && Distinct(queue)
  }

  ghost predicate Accounted<K>(handles: Handles<K>, l: LockId, lock: Lock) {
    && Counted(handles, l, lock.strong)
    && Conserved(handles, l, lock.capacity, lock.available)
    && Queued(handles, l, lock.queue)
    && (lock.available > 0 ==> lock.queue == [])
  }

  /** Only the handles of a lock object matter to it. */
  lemma SameHandles<K>(handles: Handles<K>, handles': Handles<K>, l: LockId, lock: Lock)
    requires Accounted(handles, l, lock)
    requires forall h :: (h in handles && handles[h].lock == l) <==> (h in handles' && handles'[h].lock == l)
    requires forall h | h in handles && handles[h].lock == l :: handles[h] == handles'[h]
    ensures Accounted(handles', l, lock)
  {
    SameAt(handles, handles', l, ANY);
    SameAt(handles, handles', l, TWICE);
    SameAt(handles, handles', l, {Holding});
    SameAt(handles, handles', l, {Waiting});
  }

  ghost predicate AllAccounted<K>(handles: Handles<K>, locks: map<LockId, Lock>) {
    forall l {:trigger Accounted(handles, l, locks[l])} | l in locks :: Accounted(handles, l, locks[l])
  }

  /** Handles that differ only in those of lock `l` leave every other lock as it was. */
  ghost predicate SameElsewhere<K>(handles: Handles<K>, handles': Handles<K>, l: LockId) {
    && (forall h | h in handles && handles[h].lock != l :: h in handles' && handles'[h] == handles[h])
    && (forall h | h in handles' && handles'[h].lock != l :: h in handles)
    && (forall h | h in handles && handles[h].lock == l && h in handles' :: handles'[h].lock == l)
  }

  lemma OneLockChanges<K>(handles: Handles<K>, locks: map<LockId, Lock>, handles': Handles<K>, l: LockId)
    requires AllAccounted(handles, locks) && SameElsewhere(handles, handles', l)
    ensures forall m | m in locks && m != l :: Accounted(handles', m, locks[m])
  {
    forall m | m in locks && m != l
      ensures Accounted(handles', m, locks[m])
    {
      SameHandles(handles, handles', m, locks[m]);
    }
  }

  lemma SameAt<K>(handles: Handles<K>, handles': Handles<K>, l: LockId, stages: set<Stage>)
    requires forall h :: (h in handles && handles[h].lock == l) <==> (h in handles' && handles'[h].lock == l)
    requires forall h | h in handles && handles[h].lock == l :: handles[h] == handles'[h]
    ensures At(handles', l, stages) == At(handles, l, stages)
  {
  }

  function Move<K>(handles: Handles<K>, h: HandleId, stage: Stage): Handles<K>
    requires h in handles
  {
    handles[h := handles[h].(stage := stage)]
  }

  /** A handle that changes its stage moves between the sets of its own lock. */
  lemma Moved<K>(handles: Handles<K>, h: HandleId, stage: Stage, stages: set<Stage>)
    requires h in handles
    ensures var before, after := At(handles, handles[h].lock, stages), At(Move(handles, h, stage), handles[h].lock, stages);
      && after == (if stage in stages then before + {h} else before - {h})
      && |after| == |before| + (if stage in stages then 1 else 0) - (if handles[h].stage in stages then 1 else 0)
  {
    var before, after := At(handles, handles[h].lock, stages), At(Move(handles, h, stage), handles[h].lock, stages);
    assert h in before <==> handles[h].stage in stages;
    if stage in stages {
      assert after == before + {h};
    } else {
      assert after == before - {h};
    }
  }

  /** What a stage change does to the counts, the permits and the queue of its lock. */
  lemma CountedMove<K>(handles: Handles<K>, h: HandleId, stage: Stage, strong: nat)
    requires h in handles && Counted(handles, handles[h].lock, strong)
    ensures strong >= 1
    ensures handles[h].stage == Plain && stage != Plain ==> Counted(Move(handles, h, stage), handles[h].lock, strong + 1)
    ensures handles[h].stage != Plain && stage == Plain ==> Counted(Move(handles, h, stage), handles[h].lock, strong - 1)
    ensures (handles[h].stage == Plain <==> stage == Plain) ==> Counted(Move(handles, h, stage), handles[h].lock, strong)
  {
    Moved(handles, h, stage, ANY);
    Moved(handles, h, stage, TWICE);
  }

  lemma ConservedMove<K>(handles: Handles<K>, h: HandleId, stage: Stage, capacity: nat, available: nat)
    requires h in handles && Conserved(handles, handles[h].lock, capacity, available)
    ensures handles[h].stage != Holding && stage == Holding && available > 0 ==>
              Conserved(Move(handles, h, stage), handles[h].lock, capacity, available - 1)
    ensures handles[h].stage == Holding && stage != Holding ==>
              Conserved(Move(handles, h, stage), handles[h].lock, capacity, available + 1)
    ensures (handles[h].stage == Holding <==> stage == Holding) ==>
              Conserved(Move(handles, h, stage), handles[h].lock, capacity, available)
  {
    Moved(handles, h, stage, {Holding});
  }

  lemma QueuedMove<K>(handles: Handles<K>, h: HandleId, stage: Stage, queue: seq<HandleId>)
    requires h in handles && Queued(handles, handles[h].lock, queue)
    ensures handles[h].stage != Waiting && stage == Waiting ==> Queued(Move(handles, h, stage), handles[h].lock, queue + [h])
    ensures handles[h].stage == Waiting && stage != Waiting ==>
              Queued(Move(handles, h, stage), handles[h].lock, Without(queue, h))
    ensures (handles[h].stage == Waiting <==> stage == Waiting) ==> Queued(Move(handles, h, stage), handles[h].lock, queue)
  {
    Moved(handles, h, stage, {Waiting});
  }

  /** The queue without one handle, the others in their order. */
  function Without(queue: seq<HandleId>, h: HandleId): (r: seq<HandleId>)
    ensures forall g :: g in r <==> g in queue && g != h
    ensures Distinct(queue) ==> Distinct(r)
  {
    if queue == [] then []
    else
      var rest := Without(queue[1..], h);
      assert queue == [queue[0]] + queue[1..];
      if queue[0] == h then rest
      else
        assert Distinct(queue) ==> Distinct(queue[1..]) && queue[0] !in queue[1..];
        [queue[0]] + rest
  }

  /** Handle `g` stands before handle `k`. */
  ghost predicate Before(queue: seq<HandleId>, g: HandleId, k: HandleId) {
    exists i, j :: 0 <= i < j < |queue| && queue[i] == g && queue[j] == k
  }

  lemma BeforeTail(queue: seq<HandleId>, g: HandleId, k: HandleId)
    requires queue != []
    ensures Before(queue, g, k) <==> (queue[0] == g && k in queue[1..]) || Before(queue[1..], g, k)
  {
    var rest := queue[1..];
    if Before(rest, g, k) {
      var i, j :| 0 <= i < j < |rest| && rest[i] == g && rest[j] == k;
      assert queue[i + 1] == g && queue[j + 1] == k;
    }
    if Before(queue, g, k) {
      var i, j :| 0 <= i < j < |queue| && queue[i] == g && queue[j] == k;
      assert rest[j - 1] == k;
      if i > 0 { assert rest[i - 1] == g; }
    }
    if queue[0] == g && k in rest {
      var j :| 0 <= j < |rest| && rest[j] == k;
      assert queue[j + 1] == k;
    }
  }

  /** The others keep their order. */
  lemma {:induction false} WithoutOrder(queue: seq<HandleId>, h: HandleId, g: HandleId, k: HandleId)
    requires g != h && k != h
    ensures Before(Without(queue, h), g, k) <==> Before(queue, g, k)
  {
    if queue != [] {
      WithoutOrder(queue[1..], h, g, k);
      BeforeTail(queue, g, k);
      var rest := Without(queue[1..], h);
      if queue[0] != h {
        BeforeTail([queue[0]] + rest, g, k);
        assert ([queue[0]] + rest)[1..] == rest;
      }
    }
  }

  lemma WithoutHead(queue: seq<HandleId>)
    requires queue != [] && Distinct(queue)
    ensures Without(queue, queue[0]) == queue[1..]
  {
    assert queue[0] !in queue[1..];
    WithoutAbsent(queue[1..], queue[0]);
  }

  lemma {:induction false} WithoutAbsent(queue: seq<HandleId>, h: HandleId)
    requires h !in queue
    ensures Without(queue, h) == queue
  {
    if queue != [] { WithoutAbsent(queue[1..], h); }
  }

  /** A stage change that leaves the permits and the queue alone, whatever it does to the references. */
  lemma ReferenceMove<K>(handles: Handles<K>, h: HandleId, stage: Stage, lock: Lock)
    requires h in handles && Accounted(handles, handles[h].lock, lock)
    requires (handles[h].stage == Plain && stage == Doubled) || (handles[h].stage == Doubled && stage == Plain)
    ensures lock.strong >= 1
    ensures Accounted(Move(handles, h, stage), handles[h].lock,
                      lock.(strong := if stage == Doubled then lock.strong + 1 else lock.strong - 1))
  {
    CountedMove(handles, h, stage, lock.strong);
    ConservedMove(handles, h, stage, lock.capacity, lock.available);
    QueuedMove(handles, h, stage, lock.queue);
  }

  lemma AcquireMove<K>(handles: Handles<K>, h: HandleId, lock: Lock)
    requires h in handles && handles[h].stage == Doubled && Accounted(handles, handles[h].lock, lock)
    ensures lock.available > 0 ==> Accounted(Move(handles, h, Holding), handles[h].lock, lock.(available := lock.available - 1))
    ensures lock.available == 0 ==> Accounted(Move(handles, h, Waiting), handles[h].lock, lock.(queue := lock.queue + [h]))
    ensures lock.available > 0 <==> |At(handles, handles[h].lock, {Holding})| < lock.capacity
  {
    var stage := if lock.available > 0 then Holding else Waiting;
    CountedMove(handles, h, stage, lock.strong);
    ConservedMove(handles, h, stage, lock.capacity, lock.available);
    QueuedMove(handles, h, stage, lock.queue);
  }

  lemma AbandonMove<K>(handles: Handles<K>, h: HandleId, lock: Lock)
    requires h in handles && handles[h].stage == Waiting && Accounted(handles, handles[h].lock, lock)
    ensures Accounted(Move(handles, h, Doubled), handles[h].lock, lock.(queue := Without(lock.queue, h)))
  {
    CountedMove(handles, h, Doubled, lock.strong);
    ConservedMove(handles, h, Doubled, lock.capacity, lock.available);
    QueuedMove(handles, h, Doubled, lock.queue);
    assert h in At(handles, handles[h].lock, {Waiting});
  }

  lemma ReleaseMove<K>(handles: Handles<K>, h: HandleId, lock: Lock)
    requires h in handles && handles[h].stage == Holding && Accounted(handles, handles[h].lock, lock)
    requires lock.queue == []
    ensures Accounted(Move(handles, h, Doubled), handles[h].lock, lock.(available := lock.available + 1))
  {
    CountedMove(handles, h, Doubled, lock.strong);
    ConservedMove(handles, h, Doubled, lock.capacity, lock.available);
    QueuedMove(handles, h, Doubled, lock.queue);
  }

  lemma HandoverMove<K>(handles: Handles<K>, h: HandleId, lock: Lock)
    requires h in handles && handles[h].stage == Holding && Accounted(handles, handles[h].lock, lock)
    requires lock.queue != []
    ensures lock.queue[0] in handles && lock.queue[0] != h && handles[lock.queue[0]].lock == handles[h].lock
    ensures Accounted(Move(Move(handles, h, Doubled), lock.queue[0], Holding), handles[h].lock, lock.(queue := lock.queue[1..]))
  {
    var next, given := lock.queue[0], Move(handles, h, Doubled);
    assert next in At(handles, handles[h].lock, {Waiting});
    CountedMove(handles, h, Doubled, lock.strong);
    ConservedMove(handles, h, Doubled, lock.capacity, lock.available);
    QueuedMove(handles, h, Doubled, lock.queue);
    CountedMove(given, next, Holding, lock.strong);
    ConservedMove(given, next, Holding, lock.capacity, lock.available + 1);
    QueuedMove(given, next, Holding, lock.queue);
    WithoutHead(lock.queue);
  }

  /**
   All live handles of a key share the one registered lock object, and a lock object is registered exactly
   while a handle of its key is alive.
   */
  ghost predicate Shared<K(!new)>(entries: map<K, LockId>, locks: map<LockId, Lock>, handles: Handles<K>) {
    && (forall h | h in handles :: handles[h].key in entries && entries[handles[h].key] == handles[h].lock)
    && (forall k | k in entries :: exists h :: h in handles && handles[h].key == k)
    && (forall k, m | k in entries && m in entries && entries[k] == entries[m] :: k == m)
    && entries.Values == locks.Keys
  }

  function HoldersOf<K(==)>(handles: Handles<K>, key: K): set<HandleId> {
    set h | h in handles && handles[h].key == key && handles[h].stage == Holding
  }

  /** The mutual exclusion argument in one place: what one lock object does not exceed, one key does not. */
  lemma AtMostCapacityHolders<K(!new)>(r: Registry<K>, key: K)
    requires r.Valid() && key in r.entries
    ensures r.entries[key] in r.locks
    ensures |HoldersOf(r.handles, key)| <= r.locks[r.entries[key]].capacity <= r.limit
  {
    var l := r.entries[key];
    assert l in r.entries.Values;
    assert Accounted(r.handles, l, r.locks[l]);
    assert HoldersOf(r.handles, key) == At(r.handles, l, {Holding});
  }

  /** A room's lock has capacity one, so no two handles hold the same room. */
  lemma OneHolderPerRoom<K(!new)>(r: Registry<K>, g: HandleId, h: HandleId)
    requires r.Valid() && g in r.handles && h in r.handles
    requires r.handles[g].key == r.handles[h].key
    requires r.handles[g].stage == Holding && r.handles[h].stage == Holding
    requires r.limit == 1
    ensures g == h
  {
    var key := r.handles[g].key;
    AtMostCapacityHolders(r, key);
    OneOrNone(HoldersOf(r.handles, key), g, h);
  }

  lemma OneOrNone(s: set<HandleId>, g: HandleId, h: HandleId)
    requires |s| <= 1 && g in s && h in s
    ensures g == h
  {
    AtMost({g, h}, s);
  }

  lemma AtMost(a: set<HandleId>, b: set<HandleId>)
    requires a <= b
    ensures |a| <= |b|
  {
    assert b == a + (b - a);
  }

  /** Once every lease is gone, nothing is left in the registry, and no lock object stays allocated. */
  lemma EmptyWhenIdle<K(!new)>(r: Registry<K>)
    requires r.Valid() && r.handles == map[]
    ensures r.entries == map[] && r.locks == map[]
  {
    assert r.entries.Keys == {};
    assert r.entries.Values == {};
  }

  /** A new lock object belongs to no handle. */
  lemma UnusedLock<K(!new)>(entries: map<K, LockId>, locks: map<LockId, Lock>, handles: Handles<K>, l: LockId, capacity: nat)
    requires Shared(entries, locks, handles) && l !in locks
    ensures Accounted(handles, l, Lock(capacity, 1, capacity, []))
  {
    forall h | h in handles
      ensures handles[h].lock != l
    {
      assert entries[handles[h].key] in entries.Values;
    }
    assert At(handles, l, ANY) == {} && At(handles, l, TWICE) == {} && At(handles, l, {Holding}) == {} && At(handles, l, {Waiting}) == {};
  }

  lemma OneMorePlain<K>(handles: Handles<K>, h: HandleId, key: K, l: LockId)
    requires h !in handles
    ensures |At(handles[h := Handle(key, l, Plain)], l, ANY)| == |At(handles, l, ANY)| + 1
  {
    assert At(handles[h := Handle(key, l, Plain)], l, ANY) == At(handles, l, ANY) + {h};
    assert h !in At(handles, l, ANY);
  }

  lemma NoMore<K>(handles: Handles<K>, h: HandleId, key: K, l: LockId, stages: set<Stage>)
    requires h !in handles && Plain !in stages
    ensures At(handles[h := Handle(key, l, Plain)], l, stages) == At(handles, l, stages)
  {
  }

  lemma AccountedWithOneMore<K>(handles: Handles<K>, h: HandleId, key: K, l: LockId, lock: Lock)
    requires Accounted(handles, l, lock) && h !in handles
    ensures Accounted(handles[h := Handle(key, l, Plain)], l, lock.(strong := lock.strong + 1))
  {
    OneMorePlain(handles, h, key, l);
    NoMore(handles, h, key, l, TWICE);
    NoMore(handles, h, key, l, {Holding});
    NoMore(handles, h, key, l, {Waiting});
  }

  lemma SharedByOneMore<K(!new)>(entries: map<K, LockId>, locks: map<LockId, Lock>, handles: Handles<K>,
                                 h: HandleId, key: K, l: LockId, locks': map<LockId, Lock>)
    requires Shared(entries, locks, handles) && h !in handles
    requires if key in entries then l == entries[key] else l !in locks
    requires locks'.Keys == locks.Keys + {l}
    ensures Shared(entries[key := l], locks', handles[h := Handle(key, l, Plain)])
  {
    var entries', handles' := entries[key := l], handles[h := Handle(key, l, Plain)];
    forall k | k in entries'
      ensures exists g :: g in handles' && handles'[g].key == k
    {
      if k == key {
        assert handles'[h].key == k;
      } else {
        var g :| g in handles && handles[g].key == k;
        assert handles'[g].key == k;
      }
    }
    assert forall k | k in entries :: entries[k] in entries.Values;
    assert entries'.Values == entries.Values + {l} by {
      forall v | v in entries.Values
        ensures v in entries'.Values
      {
        var k :| k in entries && entries[k] == v;
        assert entries'[k] == v;
      }
      assert entries'[key] == l;
    }
  }

  /** The same handles with the same keys and locks, other stages on lock `l` only. */
  ghost predicate SameOwners<K>(handles: Handles<K>, handles': Handles<K>, l: LockId) {
    && handles.Keys == handles'.Keys
    && (forall h | h in handles :: handles'[h] == handles[h].(stage := handles'[h].stage))
    && SameElsewhere(handles, handles', l)
  }

  lemma SharedByTheSame<K(!new)>(entries: map<K, LockId>, locks: map<LockId, Lock>, handles: Handles<K>,
                                 locks': map<LockId, Lock>, handles': Handles<K>, l: LockId)
    requires Shared(entries, locks, handles)
    requires SameOwners(handles, handles', l) && locks'.Keys == locks.Keys
    ensures Shared(entries, locks', handles')
  {
    forall k | k in entries
      ensures exists h :: h in handles' && handles'[h].key == k
    {
      var h :| h in handles && handles[h].key == k;
      assert handles'[h].key == k;
    }
  }

  /** One handle fewer, while others of its key remain. */
  lemma SharedByOneFewer<K(!new)>(entries: map<K, LockId>, locks: map<LockId, Lock>, handles: Handles<K>, h: HandleId,
                                  locks': map<LockId, Lock>)
    requires Shared(entries, locks, handles) && h in handles
    requires locks'.Keys == locks.Keys
    requires At(handles, handles[h].lock, ANY) != {h}
    ensures Shared(entries, locks', handles - {h})
  {
    Everyone(handles, handles[h].lock);
    var other :| other in At(handles, handles[h].lock, ANY) && other != h;
    forall k | k in entries
      ensures exists g :: g in handles - {h} && (handles - {h})[g].key == k
    {
      var g :| g in handles && handles[g].key == k;
      if g == h {
        assert (handles - {h})[other].key == k;
      } else {
        assert (handles - {h})[g].key == k;
      }
    }
  }

  /** The last handle of a key takes the entry and the lock object with it. */
  lemma SharedWithoutKey<K(!new)>(entries: map<K, LockId>, locks: map<LockId, Lock>, handles: Handles<K>, h: HandleId)
    requires Shared(entries, locks, handles) && h in handles
    requires At(handles, handles[h].lock, ANY) == {h}
    ensures Shared(entries - {handles[h].key}, locks - {handles[h].lock}, handles - {h})
  {
    var key, l := handles[h].key, handles[h].lock;
    var entries', handles' := entries - {key}, handles - {h};
    Everyone(handles, l);
    forall g | g in handles'
      ensures handles'[g].key in entries' && entries'[handles'[g].key] == handles'[g].lock
    {
      assert g !in At(handles, l, ANY);
    }
    forall k | k in entries'
      ensures exists g :: g in handles' && handles'[g].key == k
    {
      var g :| g in handles && handles[g].key == k;
      assert handles'[g].key == k;
    }
    assert entries'.Values == entries.Values - {l} by {
      forall v | v in entries.Values && v != l
        ensures v in entries'.Values
      {
        var k :| k in entries && entries[k] == v;
        assert entries'[k] == v;
      }
      forall v | v in entries'.Values
        ensures v in entries.Values && v != l
      {
        var k :| k in entries' && entries'[k] == v;
        assert entries[k] == v;
      }
    }
  }

  lemma Everyone<K>(handles: Handles<K>, l: LockId)
    ensures forall h :: h in At(handles, l, ANY) <==> h in handles && handles[h].lock == l
  {
    forall h | h in handles && handles[h].lock == l
      ensures h in At(handles, l, ANY)
    {
      match handles[h].stage
      case Plain => case Doubled => case Waiting => case Holding =>
    }
  }

  lemma OneFewer<K>(handles: Handles<K>, h: HandleId, l: LockId, stages: set<Stage>)
    requires h in handles && handles[h].lock == l && handles[h].stage == Plain
    ensures At(handles - {h}, l, stages) == At(handles, l, stages) - {h}
    ensures h in At(handles, l, stages) <==> Plain in stages
  {
  }

  lemma LastReference<K>(handles: Handles<K>, h: HandleId, strong: nat)
    requires h in handles && handles[h].stage == Plain && Counted(handles, handles[h].lock, strong)
    ensures strong >= 2
    ensures strong == 2 <==> At(handles, handles[h].lock, ANY) == {h}
  {
    var l := handles[h].lock;
    var all, twice := At(handles, l, ANY), At(handles, l, TWICE);
    assert h in all && h !in twice;
    AtMost({h}, all);
    if strong == 2 {
      assert |all - {h}| == 0;
      assert all - {h} == {};
    }
    if all == {h} {
      assert twice <= all;
      assert twice == {};
    }
  }

  lemma AccountedWithOneFewer<K>(handles: Handles<K>, h: HandleId, lock: Lock)
    requires h in handles && handles[h].stage == Plain && Accounted(handles, handles[h].lock, lock)
    ensures lock.strong >= 2
    ensures Accounted(handles - {h}, handles[h].lock, lock.(strong := lock.strong - 1))
  {
    LastReference(handles, h, lock.strong);
    OneFewer(handles, h, handles[h].lock, ANY);
    OneFewer(handles, h, handles[h].lock, TWICE);
    OneFewer(handles, h, handles[h].lock, {Holding});
    OneFewer(handles, h, handles[h].lock, {Waiting});
  }

  ghost predicate Sound<K(!new)>(entries: map<K, LockId>, locks: map<LockId, Lock>, handles: Handles<K>) {
    Shared(entries, locks, handles) && AllAccounted(handles, locks)
  }

  lemma ChangeKeeps<K(!new)>(entries: map<K, LockId>, locks: map<LockId, Lock>, handles: Handles<K>,
                             l: LockId, handles': Handles<K>, lock: Lock)
    requires Sound(entries, locks, handles) && l in locks
    requires SameOwners(handles, handles', l) && Accounted(handles', l, lock)
    ensures Sound(entries, locks[l := lock], handles')
  {
    OneLockChanges(handles, locks, handles', l);
    SharedByTheSame(entries, locks, handles, locks[l := lock], handles', l);
  }

  lemma FetchKeeps<K(!new)>(entries: map<K, LockId>, locks: map<LockId, Lock>, handles: Handles<K>,
                            h: HandleId, key: K, l: LockId, lock: Lock)
    requires Sound(entries, locks, handles) && h !in handles
    requires if key in entries then l == entries[key] else l !in locks
    requires Accounted(handles, l, lock)
    ensures Sound(entries[key := l], locks[l := lock.(strong := lock.strong + 1)], handles[h := Handle(key, l, Plain)])
  {
    OneLockChanges(handles, locks, handles[h := Handle(key, l, Plain)], l);
    AccountedWithOneMore(handles, h, key, l, lock);
    SharedByOneMore(entries, locks, handles, h, key, l, locks[l := lock.(strong := lock.strong + 1)]);
  }

  lemma DropKeeps<K(!new)>(entries: map<K, LockId>, locks: map<LockId, Lock>, handles: Handles<K>, h: HandleId, lock: Lock)
    requires Sound(entries, locks, handles) && h in handles && handles[h].stage == Plain
    requires handles[h].lock in locks && lock == locks[handles[h].lock]
    ensures handles[h].key in entries && entries[handles[h].key] == handles[h].lock && lock.strong >= 2
    ensures lock.strong == 2 <==> forall g | g in handles && handles[g].key == handles[h].key :: g == h
    ensures if lock.strong == 2 then Sound(entries - {handles[h].key}, locks - {handles[h].lock}, handles - {h})
            else Sound(entries, locks[handles[h].lock := lock.(strong := lock.strong - 1)], handles - {h})
  {
    var l := handles[h].lock;
    assert Accounted(handles, l, locks[l]);
    LastReference(handles, h, lock.strong);
    AccountedWithOneFewer(handles, h, lock);
    OneLockChanges(handles, locks, handles - {h}, l);
    LastOfKey(entries, locks, handles, h);
    if lock.strong == 2 {
      SharedWithoutKey(entries, locks, handles, h);
    } else {
      SharedByOneFewer(entries, locks, handles, h, locks[l := lock.(strong := lock.strong - 1)]);
    }
  }

  lemma LastOfKey<K(!new)>(entries: map<K, LockId>, locks: map<LockId, Lock>, handles: Handles<K>, h: HandleId)
    requires Shared(entries, locks, handles) && h in handles
    ensures At(handles, handles[h].lock, ANY) == {h} <==> forall g | g in handles && handles[g].key == handles[h].key :: g == h
  {
    Everyone(handles, handles[h].lock);
    if forall g | g in handles && handles[g].key == handles[h].key :: g == h {
      assert forall g | g in At(handles, handles[h].lock, ANY) :: g == h;
      assert h in At(handles, handles[h].lock, ANY);
    }
  }

  class Registry<K(==, !new)> {
    /** The largest capacity asked for: 1 for rooms. */
    const limit: nat
    var entries: map<K, LockId>
    var locks: map<LockId, Lock>
    var handles: Handles<K>

    ghost predicate Valid()
      reads this
    {
      && Sound(entries, locks, handles)
      && forall l | l in locks :: locks[l].capacity <= limit
    }

    constructor (limit: nat)
      ensures Valid() && this.limit == limit && entries == map[] && locks == map[] && handles == map[]
    {
      this.limit := limit;
      entries, locks, handles := map[], map[], map[];
    }

    ghost function LockOf(h: HandleId): Lock
      requires Valid() && h in handles
      reads this
    {
      assert handles[h].lock in entries.Values;
      locks[handles[h].lock]
    }

    /** Looks the key up under the registry mutex, creating the lock object if there is none. */
    method Fetch(key: K, capacity: nat, h: HandleId, unused: LockId)
      requires Valid() && h !in handles && unused !in locks && capacity <= limit
      modifies this
      ensures Valid()
      ensures entries == if key in old(entries) then old(entries) else old(entries)[key := unused]
      ensures handles == old(handles)[h := Handle(key, entries[key], Plain)]
      ensures locks.Keys == old(locks).Keys + {entries[key]}
      ensures forall l | l in old(locks) :: locks[l].capacity == old(locks)[l].capacity
      ensures key !in old(entries) ==> locks[unused].capacity == capacity
    {
      var isNew := key !in entries;
      var l := if isNew then unused else entries[key];
      assert !isNew ==> l in entries.Values;
      var lock := if isNew then Lock(capacity, 1, capacity, []) else locks[l];
      assert Accounted(handles, l, lock) by {
        if isNew { UnusedLock(entries, locks, handles, l, capacity); }
      }
      FetchKeeps(entries, locks, handles, h, key, l, lock);
      entries := entries[key := l];
      handles := handles[h := Handle(key, l, Plain)];
      locks := locks[l := lock.(strong := lock.strong + 1)];
    }

    /** Handles of one lock change their stages, and the lock object with them. */
    method Change(l: LockId, handles': Handles<K>, lock: Lock)
      requires Valid() && l in locks
      requires SameOwners(handles, handles', l) && Accounted(handles', l, lock) && lock.capacity <= limit
      modifies this`handles, this`locks
      ensures Valid()
      ensures handles == handles' && locks == old(locks)[l := lock]
    {
      ChangeKeeps(entries, locks, handles, l, handles', lock);
      handles := handles';
      locks := locks[l := lock];
    }

    /** `Arc::clone` before an acquisition. */
    method CloneReference(h: HandleId)
      requires Valid() && h in handles && handles[h].stage == Plain
      modifies this`handles, this`locks
      ensures Valid() && handles == Move(old(handles), h, Doubled)
      ensures LockOf(h) == old(LockOf(h)).(strong := old(LockOf(h)).strong + 1)
      ensures locks == old(locks)[handles[h].lock := LockOf(h)]
    {
      var l := handles[h].lock;
      assert locks[l] == LockOf(h);
      ReferenceMove(handles, h, Doubled, locks[l]);
      Change(l, Move(handles, h, Doubled), locks[l].(strong := locks[l].strong + 1));
    }

    /** A second reference dropped without an acquisition, or after the guard was given back. */
    method DropReference(h: HandleId)
      requires Valid() && h in handles && handles[h].stage == Doubled
      modifies this`handles, this`locks
      ensures Valid() && handles == Move(old(handles), h, Plain)
      ensures old(LockOf(h)) == LockOf(h).(strong := LockOf(h).strong + 1)
      ensures locks == old(locks)[handles[h].lock := LockOf(h)]
    {
      var l := handles[h].lock;
      assert locks[l] == LockOf(h);
      ReferenceMove(handles, h, Plain, locks[l]);
      Change(l, Move(handles, h, Plain), locks[l].(strong := locks[l].strong - 1));
    }

    /** `try_lock_owned` and `try_acquire_owned`: succeeds exactly when a permit is free, so it overtakes nobody. */
    method TryAcquire(h: HandleId) returns (acquired: bool)
      requires Valid() && h in handles && handles[h].stage == Doubled
      modifies this`handles, this`locks
      ensures Valid()
      ensures acquired <==> |At(old(handles), old(handles)[h].lock, {Holding})| < old(LockOf(h)).capacity
      ensures acquired ==> old(LockOf(h)).queue == []
      ensures handles == if acquired then Move(old(handles), h, Holding) else old(handles)
      ensures LockOf(h).queue == old(LockOf(h)).queue && LockOf(h).capacity == old(LockOf(h)).capacity
      ensures locks == old(locks)[handles[h].lock := LockOf(h)]
    {
      var l := handles[h].lock;
      assert locks[l] == LockOf(h);
      AcquireMove(handles, h, locks[l]);
      acquired := locks[l].available > 0;
      if acquired {
        Change(l, Move(handles, h, Holding), locks[l].(available := locks[l].available - 1));
      }
    }

    /** `lock_owned` and `acquire_owned` up to their first suspension: hold at once, or join the end of the queue. */
    method Acquire(h: HandleId)
      requires Valid() && h in handles && handles[h].stage == Doubled
      modifies this`handles, this`locks
      ensures Valid()
      ensures var free := |At(old(handles), old(handles)[h].lock, {Holding})| < old(LockOf(h)).capacity;
        && handles == Move(old(handles), h, if free then Holding else Waiting)
        && LockOf(h).queue == (if free then [] else old(LockOf(h)).queue + [h])
      ensures LockOf(h).capacity == old(LockOf(h)).capacity
      ensures locks == old(locks)[handles[h].lock := LockOf(h)]
    {
      var l := handles[h].lock;
      assert locks[l] == LockOf(h);
      AcquireMove(handles, h, locks[l]);
      if locks[l].available > 0 {
        Change(l, Move(handles, h, Holding), locks[l].(available := locks[l].available - 1));
      } else {
        Change(l, Move(handles, h, Waiting), locks[l].(queue := locks[l].queue + [h]));
      }
    }

    /** The guard or permit is given back; it passes to the longest waiting handle, if there is one. */
    method Release(h: HandleId)
      requires Valid() && h in handles && handles[h].stage == Holding
      modifies this`handles, this`locks
      ensures Valid()
      ensures var queue := old(LockOf(h)).queue;
        && (queue != [] ==> queue[0] in old(handles))
        && handles == (if queue == [] then Move(old(handles), h, Doubled)
                       else Move(Move(old(handles), h, Doubled), queue[0], Holding))
      ensures LockOf(h).queue == if old(LockOf(h)).queue == [] then [] else old(LockOf(h)).queue[1..]
      ensures LockOf(h).capacity == old(LockOf(h)).capacity
      ensures locks == old(locks)[handles[h].lock := LockOf(h)]
    {
      var l := handles[h].lock;
      var lock := locks[l];
      assert lock == LockOf(h);
      var given := Move(handles, h, Doubled);
      if lock.queue == [] {
        ReleaseMove(handles, h, lock);
        Change(l, given, lock.(available := lock.available + 1));
      } else {
        HandOver(h);
      }
    }

    /** The permit goes to the head of the queue. */
    method HandOver(h: HandleId)
      requires Valid() && h in handles && handles[h].stage == Holding && LockOf(h).queue != []
      modifies this`handles, this`locks
      ensures Valid() && old(LockOf(h)).queue[0] in old(handles)
      ensures handles == Move(Move(old(handles), h, Doubled), old(LockOf(h)).queue[0], Holding)
      ensures locks == old(locks)[old(handles)[h].lock := old(LockOf(h)).(queue := old(LockOf(h)).queue[1..])]
    {
      var l := handles[h].lock;
      var lock := locks[l];
      assert lock == LockOf(h);
      HandoverMove(handles, h, lock);
      Change(l, Move(Move(handles, h, Doubled), lock.queue[0], Holding), lock.(queue := lock.queue[1..]));
    }

    /** A wait is dropped: the other waiters keep their order. */
    method Abandon(h: HandleId)
      requires Valid() && h in handles && handles[h].stage == Waiting
      modifies this`handles, this`locks
      ensures Valid() && handles == Move(old(handles), h, Doubled)
      ensures LockOf(h) == old(LockOf(h)).(queue := LockOf(h).queue)
      ensures forall g :: g in LockOf(h).queue <==> g in old(LockOf(h)).queue && g != h
      ensures forall g, k | g != h && k != h :: Before(LockOf(h).queue, g, k) <==> Before(old(LockOf(h)).queue, g, k)
      ensures locks == old(locks)[handles[h].lock := LockOf(h)]
    {
      var l := handles[h].lock;
      assert locks[l] == LockOf(h);
      AbandonMove(handles, h, locks[l]);
      ghost var queue := locks[l].queue;
      Change(l, Move(handles, h, Doubled), locks[l].(queue := Without(locks[l].queue, h)));
      forall g, k | g != h && k != h
        ensures Before(LockOf(h).queue, g, k) <==> Before(queue, g, k)
      {
        WithoutOrder(queue, h, g, k);
      }
    }

    /** The critical section of the lease's drop: the entry goes with the last lease, never earlier. */
    method DropLease(h: HandleId)
      requires Valid() && h in handles && handles[h].stage == Plain
      modifies this
      ensures Valid() && handles == old(handles) - {h}
      ensures var key := old(handles)[h].key;
        entries == if forall g | g in old(handles) && old(handles)[g].key == key :: g == h then old(entries) - {key} else old(entries)
    {
      var key, l := handles[h].key, handles[h].lock;
      var lock := locks[l];
      assert lock == LockOf(h);
      DropKeeps(entries, locks, handles, h, lock);
      if lock.strong == 2 && key in entries && entries[key] == l {
        entries := entries - {key};
        handles := handles - {h};
        locks := locks - {l};
      } else {
        handles := handles - {h};
        locks := locks[l := lock.(strong := lock.strong - 1)];
      }
    }

    /** The check of a room reservation: a room without an entry has no run that holds it or waits for it. */
    method InUse(key: K) returns (used: bool)
      requires Valid()
      ensures used <==> exists h :: h in handles && handles[h].key == key
    {
      used := key in entries;
    }
  }
}
