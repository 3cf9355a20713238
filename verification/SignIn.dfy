/**
 The sign-in lifecycle over the credential vault: login start, poller, token refresh, cancel and
 disconnect, restart. Every method is one critical section of the lifecycle mutex; any interleaving of its
 tasks is a sequence of calls. `log` records the calls that matter, in order.

 The refresh lock and the start lock are held across awaits, so at most one refresh and one login start
 are under way: those are `refresh` and `start`. Pollers run detached.
 */
module SignIn {
  import opened Wrappers
  import opened VaultModel
  import opened CredentialVault

  datatype Event =
    | LoginStarted
    | LoginSaved(startedAt: nat)      // a poller wrote the credential of the login logged at `startedAt`
    | LoginUnsaved                    // a poller settled its login, but nothing was written
    | RefreshSaved
    | Cancelled
    | Disconnected                    // a disconnect that returned Ok
    | Restarted

  /** Login starts, login successes and cancels each move the lifecycle generation. */
  predicate IsFence(e: Event) {
    e.LoginStarted? || e.LoginSaved? || e.LoginUnsaved? || e.Cancelled? || e.Disconnected?
  }

  predicate NoFence(log: seq<Event>, since: nat) {
    forall i | since <= i < |log| :: !IsFence(log[i])
  }

  /** A login started after position `d` was saved after it. */
  ghost predicate CompletedSince(log: seq<Event>, d: nat) {
    exists j | d < j < |log| :: log[j].LoginSaved? && log[j].startedAt > d
  }

  /** Every disconnect was followed by the save of a login that started after it. */
  ghost predicate Reconnected(log: seq<Event>) {
    forall d | 0 <= d < |log| && log[d] == Disconnected :: CompletedSince(log, d)
  }

  /** What happened before an entry stays true when more is logged, as long as nothing disconnects. */
  lemma ReconnectedExtends(log: seq<Event>, since: nat)
    requires since <= |log| && Reconnected(log[..since])
    requires forall i | since <= i < |log| :: log[i] != Disconnected
    ensures Reconnected(log)
  {
    forall d | 0 <= d < |log| && log[d] == Disconnected
      ensures CompletedSince(log, d)
    {
      assert log[..since][d] == Disconnected;
      var j :| d < j < since && log[..since][j].LoginSaved? && log[..since][j].startedAt > d;
      assert log[j].LoginSaved?;
    }
  }

  /** One more entry leaves the past as it was and, unless it disconnects, the connection too. */
  lemma LogEntry(log: seq<Event>, e: Event)
    ensures forall c: Capture | FromLogin(log, c) :: FromLogin(log + [e], c)
    ensures forall n: nat | n <= |log| :: (log + [e])[..n] == log[..n]
    ensures e != Disconnected && Reconnected(log) ==> Reconnected(log + [e])
  {
    if e != Disconnected && Reconnected(log) {
      assert (log + [e])[..|log|] == log;
      ReconnectedExtends(log + [e], |log|);
    }
  }

  /** The generation a task captured, and how long the log was at that moment. */
  datatype Capture = Capture(generation: nat, since: nat)

  /** A task whose generation is still current was overtaken by no fence. */
  ghost predicate Fenced(log: seq<Event>, generation: nat, c: Capture) {
    && c.since <= |log| && c.generation <= generation
    && (c.generation == generation ==> NoFence(log, c.since))
  }

  /** A login task captured its generation in the login start logged just before. */
  ghost predicate FromLogin(log: seq<Event>, c: Capture) {
    0 < c.since <= |log| && log[c.since - 1] == LoginStarted
  }

  /** A poller that may still save started its login after the last disconnect, so its save reconnects. */
  lemma SaveReconnects(log: seq<Event>, mine: Capture)
    requires FromLogin(log, mine) && NoFence(log, mine.since)
    ensures Reconnected(log + [LoginSaved(mine.since - 1)])
  {
    var after := log + [LoginSaved(mine.since - 1)];
    forall d | 0 <= d < |after| && after[d] == Disconnected
      ensures CompletedSince(after, d)
    {
      assert d < mine.since - 1;
      assert after[|log|].LoginSaved?;
    }
  }

  /** A refresh also remembers which stored generation it loaded. */
  datatype Refresh = Refresh(capture: Capture, manifest: string)

  datatype PollResult = Pending | Failed | Issued(credential: Credential)

  type TaskId = nat

  predicate Names(current: Result<Option<Manifest>>, manifest: string) {
    current.Ok? && current.value.Some? && current.value.value.generation == manifest
  }

  /** Pollers belong to logins of their own, and only the one of the current generation is not overtaken. */
  ghost predicate PollersOk(log: seq<Event>, generation: nat, pollers: map<TaskId, Capture>) {
    && (forall t | t in pollers :: Fenced(log, generation, pollers[t]) && FromLogin(log, pollers[t]))
    && (forall t, u | t in pollers && u in pollers && t != u :: pollers[t].generation != pollers[u].generation)
  }

  ghost predicate StartOk(log: seq<Event>, generation: nat, pollers: map<TaskId, Capture>, start: Option<Capture>) {
    start.Some? ==>
      && Fenced(log, generation, start.value) && FromLogin(log, start.value)
      && forall t | t in pollers :: pollers[t].generation != start.value.generation
  }

  ghost predicate RefreshOk(log: seq<Event>, generation: nat, refresh: Option<Refresh>) {
    refresh.Some? ==> Fenced(log, generation, refresh.value.capture) && Reconnected(log[..refresh.value.capture.since])
  }

  /** One more log entry: a fence moves the generation, so tasks that are not overtaken by it were overtaken before. */
  lemma TasksGoOn(log: seq<Event>, e: Event, generation: nat, generation': nat, pollers: map<TaskId, Capture>,
                  start: Option<Capture>, refresh: Option<Refresh>)
    requires PollersOk(log, generation, pollers) && StartOk(log, generation, pollers, start) && RefreshOk(log, generation, refresh)
    requires if IsFence(e) then generation' == generation + 1 else generation' == generation
    ensures PollersOk(log + [e], generation', pollers) && StartOk(log + [e], generation', pollers, start)
    ensures RefreshOk(log + [e], generation', refresh)
  {
    LogEntry(log, e);
    forall c: Capture | Fenced(log, generation, c)
      ensures Fenced(log + [e], generation', c)
    {
    }
  }

  class ChatGptAuth {
    const vault: Vault
    var generation: nat
    var login: Option<nat>            // expiry of the pending device login
    var failed: bool                  // an error is being reported
    var checked: bool                 // a login start has found the vault readable
    var start: Option<Capture>
    var pollers: map<TaskId, Capture>
    var refresh: Option<Refresh>
    var log: seq<Event>               // history, not part of the daemon

    ghost predicate Tasks()
      reads this
    {
      && PollersOk(log, generation, pollers)
      && StartOk(log, generation, pollers, start)
      && RefreshOk(log, generation, refresh)
    }

    /** After a successful disconnect the vault stays empty until a login started later has been saved. */
    ghost predicate NoResurrection()
      reads this, vault
    {
      vault.items == map[] || Reconnected(log)
    }

    ghost predicate Valid()
      reads this, vault
    {
      vault.Valid() && Tasks() && NoResurrection()
    }

    constructor (vault: Vault)
      requires vault.Valid()
      ensures Valid() && fresh(this) && this.vault == vault && log == []
    {
      this.vault := vault;
      generation := 0;
      login := None;
      failed := false;
      checked := false;
      start := None;
      pollers := map[];
      refresh := None;
      log := [];
    }

    /** A new process: every task is gone, the vault remains. */
    method Restart()
      requires Valid()
      modifies this
      ensures Valid() && log == old(log) + [Restarted]
      ensures !failed && !checked && generation == 0 && login == None && pollers == map[] && start == None && refresh == None
    {
      generation, login, failed, checked := 0, None, false, false;
      start, pollers, refresh := None, map[], None;
      LogEntry(log, Restarted);
      log := log + [Restarted];
    }

    /** Takes the start lock and reads the vault, before the lifecycle lock: an unreadable vault ends the login here. */
    method LoginCheck()
      requires Valid() && !checked && start.None?
      modifies this`checked
      ensures Valid()
      ensures checked ==> LoadAny(vault.codec, vault.layout, vault.items).Ok?
      ensures vault.healthy ==> (checked <==> LoadAny(vault.codec, vault.layout, vault.items).Ok?)
    {
      var loaded := vault.Load();
      checked := loaded.Ok?;
    }

    /** Claims a new generation unless a login is pending. */
    method LoginBegin(now: nat) returns (begun: bool)
      requires Valid() && checked && start.None?
      modifies this
      ensures Valid() && !checked
      ensures begun <==> old(login).None? || old(login).value <= now
      ensures begun ==> log == old(log) + [LoginStarted] && generation == old(generation) + 1 && start == Some(Capture(generation, |log|)) && !failed
      ensures !begun ==> log == old(log) && generation == old(generation) && start == None && failed == old(failed)
      ensures pollers == old(pollers) && refresh == old(refresh) && login == old(login)
    {
      checked := false;
      if login.Some? && login.value > now {
        return false;
      }
      generation := generation + 1;
      failed := false;
      LogEntry(log, LoginStarted);
      log := log + [LoginStarted];
      start := Some(Capture(generation, |log|));
      begun := true;
    }

    /** The device request answered; a poller is spawned unless something overtook the login. */
    method LoginFinish(device: Option<nat>, task: TaskId)
      requires Valid() && start.Some? && task !in pollers
      modifies this
      ensures Valid() && start == None && log == old(log) && generation == old(generation) && refresh == old(refresh)
      ensures if device.Some? && old(start).value.generation == generation
              then login == device && pollers == old(pollers)[task := old(start).value]
              else login == old(login) && pollers == old(pollers)
    {
      if device.Some? && start.value.generation == generation {
        login := device;
        pollers := pollers[task := start.value];
      }
      start := None;
    }

    /** A poller settles one answer of the authorization server. */
    method Poll(task: TaskId, answer: PollResult, uuid: string)
      requires Valid() && task in pollers
      requires vault.codec.isUuid(uuid) && uuid !in vault.issued && uuid !in vault.singles
      modifies this, vault`items, vault`trace, vault`issued, vault`singles
      ensures Valid() && start == old(start) && refresh == old(refresh)
      ensures pollers == old(pollers) || pollers == old(pollers) - {task}
      // It writes only for its own login, and only if nothing overtook it since that login began.
      ensures log == old(log) ==> vault.items == old(vault.items) && generation == old(generation)
      ensures log != old(log) ==>
        log == old(log) + [if vault.items != old(vault.items) then LoginSaved(old(pollers[task]).since - 1) else LoginUnsaved]
      ensures log != old(log) ==>
        answer.Issued? && NoFence(old(log), old(pollers[task]).since) && old(pollers[task]).generation == old(generation)
      ensures log != old(log) ==> generation == old(generation) + 1 && login == None && task !in pollers
      ensures old(pollers[task]).generation != old(generation) ==> task !in pollers && login == old(login) && log == old(log)
      ensures old(pollers[task]).generation == old(generation) ==>
        && (log != old(log) <==> answer.Issued?)
        && (answer.Pending? ==> pollers == old(pollers) && login == old(login) && failed == old(failed))
        && (answer.Failed? ==> task !in pollers && login == None && failed)
      ensures log != old(log) && vault.healthy && Fits(vault.codec, vault.layout, uuid, answer.credential) ==>
        !failed && LoadAny(vault.codec, vault.layout, vault.items) == Saved(vault.codec, vault.layout, uuid, answer.credential)
    {
      var mine := pollers[task];
      if mine.generation != generation {
        pollers := pollers - {task};
        return;
      }
      match answer {
        case Pending =>
        case Failed =>
          failed, login := true, None;
          pollers := pollers - {task};
        case Issued(c) =>
          StoreLogin(c, mine, uuid);
          login := None;
          pollers := pollers - {task};
      }
    }

    /** Stores the credential of a login that nothing overtook, and moves the generation. */
    method StoreLogin(c: Credential, mine: Capture, uuid: string)
      requires Valid() && FromLogin(log, mine) && NoFence(log, mine.since)
      requires vault.codec.isUuid(uuid) && uuid !in vault.issued && uuid !in vault.singles
      modifies this`log, this`failed, this`generation, vault`items, vault`trace, vault`issued, vault`singles
      ensures Valid() && generation == old(generation) + 1
      ensures log == old(log) + [if vault.items != old(vault.items) then LoginSaved(mine.since - 1) else LoginUnsaved]
      ensures vault.healthy && Fits(vault.codec, vault.layout, uuid, c) ==> !failed
      ensures !failed ==> LoadAny(vault.codec, vault.layout, vault.items) == Saved(vault.codec, vault.layout, uuid, c)
    {
      var before := vault.items;
      var saved := vault.Save(c, uuid);
      failed := saved.Err?;
      var event := if vault.items != before then LoginSaved(mine.since - 1) else LoginUnsaved;
      SaveReconnects(log, mine);
      LogEntry(log, event);
      Enter(event);
    }

    /** Logs an event; a fence moves the generation with it. */
    method Enter(e: Event)
      requires Tasks()
      modifies this`log, this`generation
      ensures Tasks() && log == old(log) + [e] && generation == old(generation) + (if IsFence(e) then 1 else 0)
    {
      TasksGoOn(log, e, generation, generation + (if IsFence(e) then 1 else 0), pollers, start, refresh);
      generation := generation + (if IsFence(e) then 1 else 0);
      log := log + [e];
    }

    /** Cancels a pending login; with `disconnect` it also removes every stored secret. */
    method Cancel(disconnect: bool) returns (ok: bool)
      requires Valid()
      modifies this, vault`items, vault`trace, vault`issued, vault`singles
      ensures Valid() && generation == old(generation) + 1 && login == None
      ensures start == old(start) && pollers == old(pollers) && refresh == old(refresh)
      ensures log == old(log) + [if disconnect && ok then Disconnected else Cancelled]
      ensures disconnect && ok ==> vault.items == map[]
      ensures !failed
      ensures !disconnect ==> ok && vault.items == old(vault.items)
      ensures vault.healthy ==> ok
    {
      generation := generation + 1;
      login, failed := None, false;
      ok := true;
      if disconnect {
        ok := vault.Disconnect();
      }
      LogEntry(log, if disconnect && ok then Disconnected else Cancelled);
      log := log + [if disconnect && ok then Disconnected else Cancelled];
    }

    /** Loads the stored credential and moves a chunked login into one item; a failed move changes nothing for the caller. */
    method LoadAndMigrate(uuid: string) returns (loaded: Loaded, manifest: string)
      requires vault.Valid()
      requires vault.codec.isUuid(uuid) && uuid !in vault.issued && uuid !in vault.singles
      modifies vault`items, vault`trace, vault`issued, vault`singles
      ensures vault.Valid()
      ensures old(vault.items) == map[] ==> vault.items == map[] && (loaded == Err || loaded == Ok(None))
      ensures vault.items != old(vault.items) ==>
        vault.layout == Single && loaded.Ok? && loaded.value.Some? && loaded.value.value.0.version == 1
      ensures loaded == Err || loaded == LoadAny(vault.codec, vault.layout, old(vault.items))
      ensures loaded.Ok? && loaded.value.Some? ==> manifest in {loaded.value.value.0.generation, uuid}
      ensures loaded.Ok? && loaded.value.Some? && (vault.layout != Single || loaded.value.value.0.version != 1) ==>
        manifest == loaded.value.value.0.generation
      ensures vault.healthy && loaded.Ok? && loaded.value.Some? ==>
        Names(CurrentManifest(vault.codec, vault.layout, vault.items), manifest)
      ensures vault.issued.Keys <= old(vault.issued).Keys + {uuid} && vault.singles.Keys <= old(vault.singles).Keys + {uuid}
      ensures vault.healthy ==> loaded == LoadAny(vault.codec, vault.layout, old(vault.items))
      ensures (&& vault.healthy && vault.layout == Single && loaded.Ok? && loaded.value.Some? && loaded.value.value.0.version == 1
               && Fits(vault.codec, Single, uuid, loaded.value.value.1)) ==>
        manifest == uuid && LoadAny(vault.codec, Single, vault.items) == CompleteSingle(uuid, loaded.value.value.1)
    {
      loaded := vault.Load();
      manifest := uuid;
      if loaded.Ok? && loaded.value.Some? {
        manifest := loaded.value.value.0.generation;
        if vault.layout == Single && loaded.value.value.0.version == 1 {
          var migrated := vault.Save(loaded.value.value.1, uuid);
          manifest := if migrated.Ok? then migrated.value.generation else manifest;
        }
        if LoadAny(vault.codec, vault.layout, vault.items).Ok? && LoadAny(vault.codec, vault.layout, vault.items).value.Some? {
          CurrentOfLoad(vault.codec, vault.layout, vault.items);
        }
      }
    }

    /** Stores a refreshed credential for a refresh that nothing overtook. */
    method StoreRefreshed(c: Credential, mine: Capture, uuid: string) returns (ok: bool)
      requires Valid() && mine.since <= |log| && NoFence(log, mine.since) && Reconnected(log[..mine.since])
      requires vault.codec.isUuid(uuid) && uuid !in vault.issued && uuid !in vault.singles
      modifies this`log, this`generation, this`failed, vault`items, vault`trace, vault`issued, vault`singles
      ensures Valid() && log == old(log) + [RefreshSaved] && generation == old(generation)
      ensures vault.healthy && Fits(vault.codec, vault.layout, uuid, c) ==> ok
      ensures failed == (old(failed) && !ok)
      ensures ok ==> LoadAny(vault.codec, vault.layout, vault.items) == Saved(vault.codec, vault.layout, uuid, c)
    {
      var saved := vault.Save(c, uuid);
      ok := saved.Ok?;
      failed := failed && !ok;
      ReconnectedExtends(log, mine.since);
      LogEntry(log, RefreshSaved);
      Enter(RefreshSaved);
    }

    /**
     The first half of obtaining a usable credential: load it, move a chunked login into the single item,
     and capture the generation if the token must be refreshed.
     */
    method RefreshBegin(expired: bool, uuid: string) returns (loaded: Loaded)
      requires Valid() && refresh.None?
      requires vault.codec.isUuid(uuid) && uuid !in vault.issued && uuid !in vault.singles
      modifies this, vault`items, vault`trace, vault`issued, vault`singles
      ensures Valid() && log == old(log) && generation == old(generation)
      ensures start == old(start) && pollers == old(pollers) && login == old(login)
      ensures refresh.Some? <==> loaded.Ok? && loaded.value.Some? && expired
      ensures refresh.Some? ==> refresh.value.capture == Capture(generation, |log|)
      ensures vault.healthy ==> loaded == LoadAny(vault.codec, vault.layout, old(vault.items))
      ensures vault.healthy && refresh.Some? ==> Names(CurrentManifest(vault.codec, vault.layout, vault.items), refresh.value.manifest)
      ensures vault.issued.Keys <= old(vault.issued).Keys + {uuid} && vault.singles.Keys <= old(vault.singles).Keys + {uuid}
      ensures refresh.Some? ==> refresh.value.manifest in {loaded.value.value.0.generation, uuid}
      // Migration writes only what was loaded, so an empty vault stays empty.
      ensures old(vault.items) == map[] ==> vault.items == map[] && refresh == None
      ensures vault.items != old(vault.items) ==>
        vault.layout == Single && loaded.Ok? && loaded.value.Some? && loaded.value.value.0.version == 1
    {
      var manifest;
      loaded, manifest := LoadAndMigrate(uuid);
      if loaded.Ok? && loaded.value.Some? && expired {
        refresh := Some(Refresh(Capture(generation, |log|), manifest));
        assert log[..|log|] == log;
      }
    }

    /** The second half: the refreshed token is stored unless the generation moved or the manifest changed. */
    method RefreshFinish(answer: Option<Credential>, fenceManifest: bool, uuid: string) returns (ok: bool)
      requires Valid() && refresh.Some?
      requires vault.codec.isUuid(uuid) && uuid !in vault.issued && uuid !in vault.singles
      modifies this, vault`items, vault`trace, vault`issued, vault`singles
      ensures Valid() && refresh == None && generation == old(generation)
      ensures start == old(start) && pollers == old(pollers) && login == old(login)
      ensures log == old(log) || log == old(log) + [RefreshSaved]
      ensures log == old(log) ==> vault.items == old(vault.items) && !ok
      ensures log != old(log) ==> answer.Some?
      ensures log != old(log) ==> old(refresh).value.capture.generation == old(generation)
      ensures log != old(log) ==> NoFence(old(log), old(refresh).value.capture.since)
      ensures log != old(log) && fenceManifest ==>
        Names(CurrentManifest(vault.codec, vault.layout, old(vault.items)), old(refresh).value.manifest)
      ensures answer.Some? && old(refresh).value.capture.generation == old(generation) && !fenceManifest ==> log != old(log)
      ensures (&& answer.Some? && old(refresh).value.capture.generation == old(generation) && vault.healthy
               && Names(CurrentManifest(vault.codec, vault.layout, old(vault.items)), old(refresh).value.manifest)) ==> log != old(log)
      ensures ok ==> LoadAny(vault.codec, vault.layout, vault.items) == Saved(vault.codec, vault.layout, uuid, answer.value)
      ensures log != old(log) && vault.healthy && Fits(vault.codec, vault.layout, uuid, answer.value) ==> ok
      // An error of the server is reported only to a login that is still the current one.
      ensures answer.None? && old(refresh).value.capture.generation == old(generation) && !fenceManifest ==> failed
      ensures old(refresh).value.capture.generation != old(generation) ==> failed == old(failed) && !ok
      ensures ok ==> !failed
    {
      var mine := refresh.value;
      refresh := None;
      if mine.capture.generation != generation {
        return false;
      }
      if fenceManifest {
        var current := vault.ReadManifest();
        if !Names(current, mine.manifest) {
          return false;
        }
      }
      if answer.None? {
        failed := true;
        return false;
      }
      ok := StoreRefreshed(answer.value, mine.capture, uuid);
    }

    /** With a store that answers and nothing in between, an expired login is refreshed: the new token is what loads return. */
    method RefreshUndisturbed(c: Credential, fenceManifest: bool, first: string, second: string) returns (ok: bool)
      requires Valid() && refresh.None? && vault.healthy
      requires LoadAny(vault.codec, vault.layout, vault.items).Ok? && LoadAny(vault.codec, vault.layout, vault.items).value.Some?
      requires vault.codec.isUuid(first) && first !in vault.issued && first !in vault.singles
      requires vault.codec.isUuid(second) && second !in vault.issued && second !in vault.singles && second != first
      requires Fits(vault.codec, vault.layout, second, c)
      modifies this, vault`items, vault`trace, vault`issued, vault`singles
      ensures Valid() && ok && log == old(log) + [RefreshSaved]
      ensures LoadAny(vault.codec, vault.layout, vault.items) == Saved(vault.codec, vault.layout, second, c)
    {
      var _ := RefreshBegin(true, first);
      ok := RefreshFinish(Some(c), fenceManifest, second);
    }

    /** After a disconnect that returned Ok the vault stays empty until a login started later has been saved. */
    lemma NothingResurrects(d: nat)
      requires Valid() && d < |log| && log[d] == Disconnected
      requires forall j | d < j < |log| && log[j].LoginSaved? :: log[j].startedAt <= d
      ensures vault.items == map[]
    {
      assert !CompletedSince(log, d);
    }

    /** At most one poller can still save, and none while a newer login is being started. */
    lemma OnePollerCanSave(t: TaskId, u: TaskId)
      requires Valid() && t in pollers && u in pollers
      requires pollers[t].generation == generation && pollers[u].generation == generation
      ensures t == u
      ensures start.Some? ==> start.value.generation != generation
    {
    }
  }
}
