/**
 How runs wait for each other: room, then agent slot, then global permit. Each method of `Coordinator` is one
 atomic step of one task, and any task may take the next step. Leases are counted by their holders; that a
 registry never hands out more than its capacity is the subject of module Leases.
 */
module WaitOrder {
  import opened Wrappers

  type TaskId = nat

  datatype Resource = Room(agent: string, room: string) | Slot(agent: string) | Permit

  function Rank(r: Resource): nat {
    match r case Room(_, _) => 0 case Slot(_) => 1 case Permit => 2
  }

  datatype Mode = Wait | TryNow

  /** What kind of room a run asks for. */
  datatype RoomKind = Generated | Stable | DiscordThread | Delegated | DelegatedIn | Peer

  /** How a run comes in: answered at once when no permit is free, accepted to wait for one, or with a ticket taken beforehand. */
  datatype Entry = FailFast | Accepted | Ticketed

  /** Nested runs, which come in through a delegated or peer room, and tickets never wait for room or slot. */
  function AdmitMode(kind: RoomKind, entry: Entry): Mode {
    if entry == Ticketed || kind == Delegated || kind == Peer then TryNow else Wait
  }

  function PermitMode(entry: Entry): Mode {
    if entry == Accepted then Wait else TryNow
  }

  datatype Phase =
    | AtQueue        // its session queue is waiting for the room
    | Handed         // holds the room its session queue took for it
    | AtRoom         // acquiring its room
    | AtSlot         // acquiring its agent's slot
    | AtPermit       // acquiring the global permit
    | HelperSlot     // a helper with its permit, taking its slot
    | HelperRoom     // a helper with its permit and slot, taking its fresh room
    | Running        // holds everything
    | Reserved       // a room reservation: holds one room, acquires nothing

  /** `suspended`: an acquisition of the task is queued; `awaits`: the nested runs it started and waits for. */
  datatype Task = Task(agent: string, room: string, kind: RoomKind, entry: Entry, phase: Phase,
                       holds: set<Resource>, awaits: set<TaskId>, suspended: bool)

  type Tasks = map<TaskId, Task>

  function Want(t: Task): Option<Resource> {
    match t.phase
    case AtQueue => Some(Room(t.agent, t.room))
    case AtRoom => Some(Room(t.agent, t.room))
    case HelperRoom => Some(Room(t.agent, t.room))
    case AtSlot => Some(Slot(t.agent))
    case HelperSlot => Some(Slot(t.agent))
    case AtPermit => Some(Permit)
    case _ => None
  }

  /** The acquisitions that suspend until the resource is free; all others fail at once. */
  predicate Blocking(t: Task) {
    || t.phase == AtQueue
    || ((t.phase == AtRoom || t.phase == AtSlot) && AdmitMode(t.kind, t.entry) == Wait)
    || (t.phase == AtPermit && PermitMode(t.entry) == Wait)
  }

  function Holders(tasks: Tasks, r: Resource): set<TaskId> {
    set i | i in tasks && r in tasks[i].holds
  }

  /** Task `i` cannot go on before task `j` takes a step. */
  ghost predicate WaitsOn(tasks: Tasks, capacity: Resource -> nat, i: TaskId, j: TaskId) {
    && i in tasks && j in tasks
    && (|| (&& Blocking(tasks[i])
            && |Holders(tasks, Want(tasks[i]).value)| >= capacity(Want(tasks[i]).value)
            && j in Holders(tasks, Want(tasks[i]).value))
        || (tasks[i].phase == Running && j in tasks[i].awaits))
  }

  predicate Free(tasks: Tasks, capacity: Resource -> nat, r: Resource) {
    |Holders(tasks, r)| < capacity(r)
  }

  /** Nobody overtakes a suspended task: a unit goes to a suspended one, or to anybody when none is suspended for it. */
  predicate CanTake(tasks: Tasks, capacity: Resource -> nat, i: TaskId)
    requires i in tasks && Want(tasks[i]).Some?
  {
    Free(tasks, capacity, Want(tasks[i]).value) && (tasks[i].suspended || !Contended(tasks, Want(tasks[i]).value))
  }

  predicate Contended(tasks: Tasks, r: Resource) {
    exists k :: k in tasks && tasks[k].suspended && Want(tasks[k]) == Some(r)
  }

  /** A task that waits for a full resource, or for a nested run that is still alive. */
  predicate Blocked(tasks: Tasks, capacity: Resource -> nat, i: TaskId)
    requires i in tasks
  {
    if Blocking(tasks[i]) then !Free(tasks, capacity, Want(tasks[i]).value)
    else tasks[i].phase == Running && exists c :: c in tasks[i].awaits && c in tasks
  }

  /** A task whose next step is its own: it takes what it waits for, or does not wait for anything. */
  predicate CanGoOn(tasks: Tasks, capacity: Resource -> nat, i: TaskId)
    requires i in tasks
  {
    !Blocked(tasks, capacity, i) && (Blocking(tasks[i]) ==> CanTake(tasks, capacity, i))
  }

  /** Nobody suspends for a resource at or below the rank of one it holds. */
  predicate Ordered(t: Task) {
    Blocking(t) ==> forall r | r in t.holds :: Rank(r) < Rank(Want(t).value)
  }

  predicate NeverSuspends(t: Task) {
    AdmitMode(t.kind, t.entry) == TryNow && PermitMode(t.entry) == TryNow && t.phase != AtQueue && t.phase != Handed
  }

  /** A run that is awaited began later and never suspends. */
  predicate NestedTries(tasks: Tasks, i: TaskId)
    requires i in tasks
  {
    forall c | c in tasks[i].awaits && c in tasks :: i < c && NeverSuspends(tasks[c])
  }

  function RoomOf(t: Task): Resource { Room(t.agent, t.room) }

  /** What a task holds in each phase; only a running task awaits another. */
  predicate Carries(t: Task) {
    && (t.awaits != {} ==> t.phase == Running)
    && (t.suspended ==> Blocking(t))
    && match t.phase
       case AtQueue => t.holds == {}
       case AtRoom => t.holds == {}
       case Handed => t.holds == {RoomOf(t)}
       case AtSlot => t.holds == {RoomOf(t)}
       case AtPermit => t.holds == {RoomOf(t), Slot(t.agent)}
       case HelperSlot => t.holds == {Permit}
       case HelperRoom => t.holds == {Permit, Slot(t.agent)}
       case Running => t.holds == {RoomOf(t), Slot(t.agent), Permit}
       case Reserved => t.holds == {RoomOf(t)}
  }

  /** Which runs wait: for room and slot those without a ticket in any but a delegated or peer room, for the permit the accepted ones. */
  lemma WhoWaits(t: Task)
    ensures t.phase == AtRoom || t.phase == AtSlot ==>
      (Blocking(t) <==> t.entry != Ticketed && (t.kind == Generated || t.kind == Stable || t.kind == DiscordThread || t.kind == DelegatedIn))
    ensures t.phase == AtPermit ==> (Blocking(t) <==> t.entry == Accepted)
    ensures t.phase == AtQueue ==> Blocking(t)
    ensures t.phase == HelperSlot || t.phase == HelperRoom || t.phase == Running || t.phase == Reserved || t.phase == Handed ==> !Blocking(t)
  {
  }

  /** Room, then slot, then permit; a helper has its permit first. */
  lemma OrderOfAcquisitions(t: Task)
    requires Carries(t) && Want(t).Some?
    ensures After(t.phase) == Running <==> t.holds + {Want(t).value} == {RoomOf(t), Slot(t.agent), Permit}
    ensures t.holds == {} ==> Want(t).value == RoomOf(t)
    ensures t.holds == {RoomOf(t)} ==> Want(t).value == Slot(t.agent)
    ensures t.holds == {RoomOf(t), Slot(t.agent)} ==> Want(t).value == Permit
    ensures t.holds == {Permit} ==> Want(t).value == Slot(t.agent)
    ensures t.holds == {Permit, Slot(t.agent)} ==> Want(t).value == RoomOf(t)
  {
    assert Permit in {RoomOf(t), Slot(t.agent), Permit} && Slot(t.agent) in {RoomOf(t), Slot(t.agent), Permit};
  }

  /** A unit is taken by a task that is suspended for it, or by any task while none is: nobody overtakes a suspended task. */
  lemma TakenInTurn(tasks: Tasks, capacity: Resource -> nat, i: TaskId)
    requires i in tasks && Want(tasks[i]).Some?
    ensures CanTake(tasks, capacity, i) <==>
      && |Holders(tasks, Want(tasks[i]).value)| < capacity(Want(tasks[i]).value)
      && (tasks[i].suspended || forall k | k in tasks && tasks[k].suspended :: Want(tasks[k]) != Want(tasks[i]))
  {
  }

  lemma SuspendsUpwards(t: Task)
    requires Carries(t)
    ensures Ordered(t)
  {
  }

  ghost predicate WithinCapacity(tasks: Tasks, capacity: Resource -> nat) {
    forall r: Resource :: |Holders(tasks, r)| <= capacity(r)
  }

  ghost predicate Sound(tasks: Tasks, capacity: Resource -> nat, next: TaskId) {
    && WithinCapacity(tasks, capacity)
    && (forall i | i in tasks :: i < next && Carries(tasks[i]) && NestedTries(tasks, i))
    && (forall i, c | i in tasks && c in tasks[i].awaits :: c < next)
  }

  /** How far a task is from the end of every chain of waits. */
  function Distance(t: Task): nat {
    if Blocking(t) then 3 - Rank(Want(t).value) else 0
  }

  /** Every wait points at a task strictly nearer the end, or equally near and younger. */
  lemma WaitsDescend(tasks: Tasks, capacity: Resource -> nat, next: TaskId, i: TaskId, j: TaskId)
    requires Sound(tasks, capacity, next) && WaitsOn(tasks, capacity, i, j)
    ensures Distance(tasks[j]) < Distance(tasks[i]) || (Distance(tasks[j]) == Distance(tasks[i]) == 0 && i < j)
  {
    if Blocking(tasks[i]) {
      assert Want(tasks[i]).value in tasks[j].holds;
      SuspendsUpwards(tasks[j]);
    } else {
      assert NestedTries(tasks, i);
    }
  }

  ghost predicate Chain(tasks: Tasks, capacity: Resource -> nat, path: seq<TaskId>) {
    forall k | 0 <= k < |path| - 1 :: WaitsOn(tasks, capacity, path[k], path[k + 1])
  }

  lemma {:induction false} ChainDescends(tasks: Tasks, capacity: Resource -> nat, next: TaskId, path: seq<TaskId>)
    requires Sound(tasks, capacity, next) && |path| >= 2 && Chain(tasks, capacity, path)
    ensures path[0] in tasks && path[|path| - 1] in tasks
    ensures var i, j := path[0], path[|path| - 1];
      Distance(tasks[j]) < Distance(tasks[i]) || (Distance(tasks[j]) == Distance(tasks[i]) == 0 && i < j)
  {
    assert WaitsOn(tasks, capacity, path[0], path[1]);
    WaitsDescend(tasks, capacity, next, path[0], path[1]);
    if |path| > 2 {
      var rest := path[1..];
      forall k | 0 <= k < |rest| - 1
        ensures WaitsOn(tasks, capacity, rest[k], rest[k + 1])
      {
        assert WaitsOn(tasks, capacity, path[k + 1], path[k + 2]);
      }
      ChainDescends(tasks, capacity, next, rest);
    }
  }

  /** No chain of waits ever closes. */
  lemma NoWaitCycle(tasks: Tasks, capacity: Resource -> nat, next: TaskId, path: seq<TaskId>)
    requires Sound(tasks, capacity, next) && |path| >= 2 && Chain(tasks, capacity, path)
    ensures path[0] != path[|path| - 1]
  {
    ChainDescends(tasks, capacity, next, path);
  }

  lemma HolderExists(tasks: Tasks, capacity: Resource -> nat, r: Resource) returns (j: TaskId)
    requires |Holders(tasks, r)| >= capacity(r) > 0
    ensures j in Holders(tasks, r)
  {
    assert Holders(tasks, r) != {};
    j :| j in Holders(tasks, r);
  }

  /** Following the waits of any task ends at a task that nothing blocks. */
  lemma {:induction false} SomeTaskIsFree(tasks: Tasks, capacity: Resource -> nat, next: TaskId, i: TaskId) returns (j: TaskId)
    requires Sound(tasks, capacity, next) && i in tasks
    requires forall r: Resource :: capacity(r) > 0
    ensures j in tasks && !Blocked(tasks, capacity, j)
    decreases Distance(tasks[i]), next - i
  {
    if !Blocked(tasks, capacity, i) {
      j := i;
    } else {
      var k;
      if Blocking(tasks[i]) {
        k := HolderExists(tasks, capacity, Want(tasks[i]).value);
      } else {
        k :| k in tasks[i].awaits && k in tasks;
      }
      assert WaitsOn(tasks, capacity, i, k);
      WaitsDescend(tasks, capacity, next, i, k);
      j := SomeTaskIsFree(tasks, capacity, next, k);
    }
  }

  /** In every state with a task, some task can go on; a free unit that one may not take is another's to take. */
  lemma SomeTaskCanGoOn(tasks: Tasks, capacity: Resource -> nat, next: TaskId, i: TaskId) returns (j: TaskId)
    requires Sound(tasks, capacity, next) && i in tasks
    requires forall r: Resource :: capacity(r) > 0
    ensures j in tasks && CanGoOn(tasks, capacity, j)
  {
    j := SomeTaskIsFree(tasks, capacity, next, i);
    if Blocking(tasks[j]) && !CanTake(tasks, capacity, j) {
      var want := Want(tasks[j]);
      j :| j in tasks && tasks[j].suspended && Want(tasks[j]) == want;
      assert Carries(tasks[j]);
    }
  }

  /**
   The hazard of the source's warning: a run that starts a waiting run for its own room. Whatever the other
   tasks do, the two wait for each other.
   */
  lemma NestedWaitDeadlocks(tasks: Tasks, capacity: Resource -> nat, parent: TaskId, child: TaskId)
    requires parent in tasks && child in tasks
    requires capacity(Room(tasks[parent].agent, tasks[parent].room)) == 1
    requires tasks[parent].phase == Running && child in tasks[parent].awaits
    requires Room(tasks[parent].agent, tasks[parent].room) in tasks[parent].holds
    requires tasks[child].agent == tasks[parent].agent && tasks[child].room == tasks[parent].room
    requires tasks[child].phase == AtRoom && AdmitMode(tasks[child].kind, tasks[child].entry) == Wait
    ensures Blocked(tasks, capacity, parent) && Blocked(tasks, capacity, child)
    ensures Chain(tasks, capacity, [parent, child, parent])
  {
    var r := Room(tasks[parent].agent, tasks[parent].room);
    assert parent in Holders(tasks, r);
    assert Holders(tasks, r) == {parent} + (Holders(tasks, r) - {parent});
    assert WaitsOn(tasks, capacity, child, parent) && WaitsOn(tasks, capacity, parent, child);
  }

  /** Taking one unit of a resource that has one free. */
  lemma OneMoreHolder(tasks: Tasks, capacity: Resource -> nat, i: TaskId, t: Task, r: Resource)
    requires WithinCapacity(tasks, capacity) && |Holders(tasks, r)| < capacity(r)
    requires t.holds <= (if i in tasks then tasks[i].holds else {}) + {r}
    ensures WithinCapacity(tasks[i := t], capacity)
  {
    forall m: Resource
      ensures |Holders(tasks[i := t], m)| <= capacity(m)
    {
      HoldersAfter(tasks, i, t, r, m);
    }
  }

  lemma HoldersAfter(tasks: Tasks, i: TaskId, t: Task, r: Resource, m: Resource)
    requires t.holds <= (if i in tasks then tasks[i].holds else {}) + {r}
    ensures |Holders(tasks[i := t], m)| <= |Holders(tasks, m)| + (if m == r then 1 else 0)
  {
    if m == r {
      AtMost(Holders(tasks[i := t], m), Holders(tasks, m) + {i});
    } else {
      AtMost(Holders(tasks[i := t], m), Holders(tasks, m));
    }
  }

  lemma NoMoreHolders(tasks: Tasks, capacity: Resource -> nat, tasks': Tasks)
    requires WithinCapacity(tasks, capacity)
    requires forall i | i in tasks' && tasks'[i].holds != {} :: i in tasks && tasks'[i].holds <= tasks[i].holds
    ensures WithinCapacity(tasks', capacity)
  {
    forall m: Resource
      ensures |Holders(tasks', m)| <= capacity(m)
    {
      AtMost(Holders(tasks', m), Holders(tasks, m));
    }
  }

  lemma AtMost(a: set<TaskId>, b: set<TaskId>)
    requires a <= b
    ensures |a| <= |b|
  {
    assert b == a + (b - a);
  }

  /** The phase after an acquisition. */
  function After(p: Phase): Phase {
    match p
    case AtQueue => Handed
    case AtRoom => AtSlot
    case AtSlot => AtPermit
    case AtPermit => Running
    case HelperSlot => HelperRoom
    case HelperRoom => Running
    case _ => p
  }

  function HelperTask(agent: string, room: string): Task {
    Task(agent, room, Delegated, FailFast, HelperSlot, {Permit}, {}, false)
  }

  function ReservationTask(agent: string, room: string): Task {
    Task(agent, room, Stable, Ticketed, Reserved, {Room(agent, room)}, {}, false)
  }

  /** Some task holds the resource or is acquiring it. */
  predicate InUse(tasks: Tasks, r: Resource) {
    exists i :: i in tasks && (r in tasks[i].holds || Want(tasks[i]) == Some(r))
  }

  lemma TakenCarries(t: Task)
    requires Carries(t) && Want(t).Some?
    ensures Carries(t.(phase := After(t.phase), holds := t.holds + {Want(t).value}, suspended := false))
    ensures NeverSuspends(t) ==> NeverSuspends(t.(phase := After(t.phase), holds := t.holds + {Want(t).value}, suspended := false))
  {
  }

  class Coordinator {
    const capacity: Resource -> nat
    var tasks: Tasks
    var next: TaskId

    ghost predicate Valid()
      reads this
    {
      Sound(tasks, capacity, next)
    }

    constructor (capacity: Resource -> nat)
      ensures Valid() && this.capacity == capacity && tasks == map[]
    {
      this.capacity := capacity;
      tasks, next := map[], 0;
      new;
      forall r: Resource ensures |Holders(tasks, r)| <= capacity(r) { assert Holders(tasks, r) == {}; }
    }

    /** A top-level run begins, or its session queue begins to wait for its room. */
    method Start(agent: string, room: string, kind: RoomKind, entry: Entry, queued: bool) returns (i: TaskId)
      requires Valid()
      modifies this
      ensures Valid() && i == old(next) && next == i + 1
      ensures tasks == old(tasks)[i := Task(agent, room, kind, entry, if queued then AtQueue else AtRoom, {}, {}, false)]
    {
      i := next;
      tasks := tasks[i := Task(agent, room, kind, entry, if queued then AtQueue else AtRoom, {}, {}, false)];
      next := next + 1;
      NoMoreHolders(old(tasks), capacity, tasks);
    }

    /** A tool starts a nested run for a delegate or a peer and awaits it: such a run never suspends. */
    method StartNested(parent: TaskId, agent: string, room: string, peer: bool) returns (i: TaskId)
      requires Valid() && parent in tasks && tasks[parent].phase == Running
      modifies this
      ensures Valid() && i == old(next) && next == i + 1
      ensures i in tasks && tasks[i] == Task(agent, room, if peer then Peer else Delegated, FailFast, AtRoom, {}, {}, false)
      ensures NeverSuspends(tasks[i])
      ensures tasks == old(tasks)[i := tasks[i]][parent := old(tasks)[parent].(awaits := old(tasks)[parent].awaits + {i})]
    {
      i := Start(agent, room, if peer then Peer else Delegated, FailFast, false);
      Await(parent, i);
    }

    method Await(parent: TaskId, child: TaskId)
      requires Valid() && parent in tasks && tasks[parent].phase == Running
      requires child in tasks && parent < child && NeverSuspends(tasks[child])
      modifies this`tasks
      ensures Valid() && tasks == old(tasks)[parent := old(tasks)[parent].(awaits := old(tasks)[parent].awaits + {child})]
    {
      tasks := tasks[parent := tasks[parent].(awaits := tasks[parent].awaits + {child})];
      NoMoreHolders(old(tasks), capacity, tasks);
    }

    /** A helper takes its permit first, or is refused; the run that spawned it, if any, awaits it. */
    method SpawnHelper(parent: Option<TaskId>, agent: string, room: string) returns (i: Option<TaskId>)
      requires Valid() && (parent.Some? ==> parent.value in tasks && tasks[parent.value].phase == Running)
      modifies this
      ensures Valid()
      ensures i == if Free(old(tasks), capacity, Permit) && !Contended(old(tasks), Permit) then Some(old(next)) else None
      ensures i == None ==> tasks == old(tasks) && next == old(next)
      ensures i.Some? ==> next == i.value + 1 && i.value in tasks && NeverSuspends(tasks[i.value])
      ensures i.Some? ==> tasks[i.value] == HelperTask(agent, room)
      ensures i.Some? && parent.None? ==> tasks == old(tasks)[i.value := HelperTask(agent, room)]
      ensures i.Some? && parent.Some? ==> var p := old(tasks)[parent.value];
        tasks == old(tasks)[i.value := HelperTask(agent, room)][parent.value := p.(awaits := p.awaits + {i.value})]
    {
      i := Take(HelperTask(agent, room), Permit);
      if i.Some? && parent.Some? { Await(parent.value, i.value); }
    }

    /** A new task that takes one unit by trying, and exists only if it gets it. */
    method Take(t: Task, r: Resource) returns (i: Option<TaskId>)
      requires Valid() && t.holds == {r} && Carries(t) && t.awaits == {}
      modifies this
      ensures Valid()
      ensures i == if Free(old(tasks), capacity, r) && !Contended(old(tasks), r) then Some(old(next)) else None
      ensures i == None ==> tasks == old(tasks) && next == old(next)
      ensures i.Some? ==> next == i.value + 1 && tasks == old(tasks)[i.value := t]
    {
      i := None;
      if Free(tasks, capacity, r) && !Contended(tasks, r) {
        i := Some(next);
        OneMoreHolder(tasks, capacity, next, t, r);
        tasks := tasks[next := t];
        next := next + 1;
      }
    }

    /** A room reservation takes a room that no run holds or is acquiring, and acquires nothing else. */
    method Reserve(agent: string, room: string) returns (i: Option<TaskId>)
      requires Valid()
      modifies this
      ensures Valid()
      ensures i == if !InUse(old(tasks), Room(agent, room)) && capacity(Room(agent, room)) > 0 then Some(old(next)) else None
      ensures i == None ==> tasks == old(tasks) && next == old(next)
      ensures i.Some? ==> next == i.value + 1 && tasks == old(tasks)[i.value := ReservationTask(agent, room)]
    {
      i := None;
      if !InUse(tasks, Room(agent, room)) {
        assert Holders(tasks, Room(agent, room)) == {};
        i := Take(ReservationTask(agent, room), Room(agent, room));
      }
    }

    /** One acquisition: it succeeds when a unit is free and not due to another, otherwise it is queued or gives everything back. */
    method Acquire(i: TaskId)
      requires Valid() && i in tasks && Want(tasks[i]).Some?
      modifies this`tasks
      ensures Valid()
      ensures var t, want := old(tasks)[i], Want(old(tasks)[i]).value;
        tasks == if CanTake(old(tasks), capacity, i)
                 then old(tasks)[i := t.(phase := After(t.phase), holds := t.holds + {want}, suspended := false)]
                 else if Blocking(t) then old(tasks)[i := t.(suspended := true)] else old(tasks) - {i}
    {
      var t, want := tasks[i], Want(tasks[i]).value;
      if CanTake(tasks, capacity, i) {
        var t' := t.(phase := After(t.phase), holds := t.holds + {want}, suspended := false);
        TakenCarries(t);
        OneMoreHolder(tasks, capacity, i, t', want);
        tasks := tasks[i := t'];
      } else if Blocking(t) {
        tasks := tasks[i := t.(suspended := true)];
        NoMoreHolders(old(tasks), capacity, tasks);
      } else {
        Finish(i);
      }
    }

    /** A handed room that is the request's own stands in for waiting; any other goes back before the wait. */
    method UseHanded(i: TaskId, agent: string, room: string)
      requires Valid() && i in tasks && tasks[i].phase == Handed
      modifies this`tasks
      ensures Valid()
      ensures var t := old(tasks)[i];
        tasks == old(tasks)[i := if t.agent == agent && t.room == room then t.(phase := AtSlot)
                                 else t.(agent := agent, room := room, phase := AtRoom, holds := {})]
    {
      var t := tasks[i];
      tasks := tasks[i := if t.agent == agent && t.room == room then t.(phase := AtSlot)
                          else t.(agent := agent, room := room, phase := AtRoom, holds := {})];
      NoMoreHolders(old(tasks), capacity, tasks);
    }

    /** A nested run has ended, and the task that awaited it learns of it. */
    method Resume(i: TaskId, child: TaskId)
      requires Valid() && i in tasks && child in tasks[i].awaits && child !in tasks
      modifies this`tasks
      ensures Valid() && tasks == old(tasks)[i := old(tasks)[i].(awaits := old(tasks)[i].awaits - {child})]
    {
      tasks := tasks[i := tasks[i].(awaits := tasks[i].awaits - {child})];
      NoMoreHolders(old(tasks), capacity, tasks);
    }

    /** A task ends, fails, or its wait is dropped: everything it held goes back. */
    method Finish(i: TaskId)
      requires Valid() && i in tasks
      modifies this`tasks
      ensures Valid() && tasks == old(tasks) - {i}
    {
      tasks := tasks - {i};
      NoMoreHolders(old(tasks), capacity, tasks);
    }
  }
}
