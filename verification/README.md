# Anima daemon: verified state machines

Dafny models of the stateful core of the Anima Rust daemon (`hosts/rust-daemon`), with proofs about every
run of it: under failing and half-failing writes, crashes and restarts, and any interleaving of its tasks.
`dafny verify dfyconfig.toml` checks everything.

| file | part of the daemon | main results |
|---|---|---|
| `VaultText`, `VaultKeys`, `VaultModel`, `CredentialVault` | the ChatGPT credential vault: chunks behind a manifest, cleanup journal, single-item layout | crash atomicity of saves, no orphaned chunk, reads never mix generations, an old login never resurfaces |
| `SignIn` | login, poller, refresh, migration, cancel and disconnect | no resurrection after a disconnect, one poller can save |
| `Leases`, `WaitingBudget`, `WaitOrder` | run admission: room locks, agent slots, waiting units, global permit | one lock object per key, exact reference counts, no wait cycle |
| `ExecutionLimits`, `BudgetRegistry`, `BudgetAdmission`, `BudgetHost`, `BudgetLedger` | the execution-budget registry | evidence is never lost by admissions, reservations or settlements, lineages share a scope, tightening is a meet |
| `JobRecords`, `Jobs` | durable jobs | at-most-once attempts, every snapshot loads, stops are never lost |
| `Reviews` | second-opinion reviews | a review settles once, findings are acknowledged |
| `Results`, `Calculations` | saved chat results | upserts replay safely |
| `Logs` | the log tail | streams without a gap |

## How the outside world is modelled

- A write to the vault, the control-plane snapshot or the budget store is acknowledged, fails without effect,
  or fails after it took effect. A read of the vault may fail. Which one happens is arbitrary, except that nothing
  fails while the vault's field `healthy` holds; what an operation must achieve then is stated with it.
- An acknowledged snapshot save is taken to have been written. The store also acknowledges a snapshot that a newer one has
  overtaken, without writing it (state.rs, lines 2008-2013); that case is not modelled.
- Each vault key is written atomically and deleting an absent key succeeds. A crash between two vault writes
  leaves what a failing next write leaves, because every failure abandons the operation; the ghost field `trace`
  of `Vault` holds the contents after every single write, and what is proved of its elements holds at every crash.
- A restart loses everything but the durable map or snapshot. Every method of a class is one critical section
  or one step of a task; a run of the daemon is any sequence of method calls.
- UUIDs are fresh names; JSON encodings are functions with an inverse (`VaultModel.Lawful`); clocks are
  parameters that may go backwards. Provider answers, goal and workflow checks, and the check of one result's
  texts and payload are arbitrary parameters.
- Generations of the sign-in lifecycle are unbounded numbers; job revisions saturate at 2^64 - 1 as in the source.
- Class fields that only record history (`log`, `executed`, `stopped`, `settled`, `calls`, `acked`, `unconfirmed`,
  `returned`, `used`, `pushed`, `seen`, `edges`, and `marks` in a job) exist to state properties; no decision reads
  them, except that `pushed` also stands for the contents of the broadcast channel.

## Where the code does less than it may seem to

- A credential is loadable after a successful save exactly when its access token, refresh token and account id are
  nonempty (`VaultModel.Complete`, `CompleteSingle`). The token parser checks the first two but not the account id
  (chatgpt_auth.rs, lines 163-168), so a login with an empty account id is saved and then cannot be loaded (`Vault.SaveWithoutAccount`); the
  crash-atomicity theorem over whole runs is stated for credentials that pass the check.
- A review whose final save is reported as failed after it took effect is shown as failed and returns as completed,
  with its findings, after a restart (`Reviews.FailedReviewReturns`). It happens exactly for the reviews of such saves
  that no later write covered before the process ended (`Reviews.FindingsAreAcknowledged` and the contract of
  `Restart`). A row settled by a failed save also keeps an empty finish time (`Reviews.UnsavedRow`).
- The order in which two owners tighten a scope does not affect its limits and deadline, but it may affect the version
  number (`BudgetAdmission.OrderChangesVersion`); `BudgetAdmission.VersionsAgree` says exactly when it does not.
- A settlement may lose usage that an earlier settlement recorded and its reservation did not; scopes written by this code
  never look like that (`BudgetLedger.SettleKeeps`, `UnseenUsageIsLost`, `SettleRetains`).
- A create request that is answered with the result of an update, because it repeats that update's key and content, may
  later create a result of its own (`Results.AnsweredByAnotherAddsLater`); one answered with the result it names never does.
- A run that starts a waiting run for its own room and awaits it deadlocks (`WaitOrder.NestedWaitDeadlocks`); the
  absence of wait cycles holds because nested runs come in through rooms that only try, and so do helpers.

## Model

| member | source | states |
|---|---|---|
| `VaultText.JoinOfPieces` | hosts/rust-daemon/src/chatgpt_auth.rs:544-548 | cutting a payload into pieces of 500 characters loses and reorders nothing |
| `VaultText.PieceCount` | hosts/rust-daemon/src/chatgpt_auth.rs:544-548 | the number of pieces is the length over 500 rounded up, and every piece has 1 to 500 characters |
| `VaultText.PiecesFitTheVault` | hosts/rust-daemon/src/chatgpt_auth.rs:537-553 | every nonempty payload of at most 65536 UTF-8 bytes gives 1 to 132 pieces of at most 500 characters, 2000 UTF-8 bytes and 2560 UTF-16 bytes, whose concatenation is the payload |
| `VaultText.Utf8LenConcat` | hosts/rust-daemon/src/chatgpt_auth.rs:428-441 | byte lengths add up, so the running total that a load checks is the length of the text assembled so far |
| `VaultText.JoinPrefixBytes` | hosts/rust-daemon/src/chatgpt_auth.rs:428-441 | no prefix of the pieces exceeds the bytes of the whole payload, so a load never trips over its own total limit |
| `VaultKeys.NamesAreDistinct` | hosts/rust-daemon/src/chatgpt_auth.rs:917-921 | two vault items have one account name exactly when they are one item, for every generation without a dot |
| `VaultKeys.NamesAsStored` | hosts/rust-daemon/src/chatgpt_auth.rs:917-921 | the fixed names and the form generation, dot, decimal index |
| `VaultModel.FitsManifest` | hosts/rust-daemon/src/chatgpt_auth.rs:375-380 | whatever the size check of a save admits gives a manifest that the manifest check admits |
| `VaultModel.AssembleParts` | hosts/rust-daemon/src/chatgpt_auth.rs:428-441 | chunk reads that each saw the right piece or nothing assemble to the whole payload or to an error |
| `VaultModel.InterpretGeneration` | hosts/rust-daemon/src/chatgpt_auth.rs:424-443 | a generation read piece by piece yields the credential it was created for, or an error, and nothing else |
| `VaultModel.LoadOfInvariantState` | hosts/rust-daemon/src/chatgpt_auth.rs:424-443 | in every state of the protocol a load returns nothing without a manifest and exactly the complete active credential with one, unless one of its chunks is missing |
| `VaultModel.LoadFrame` | hosts/rust-daemon/src/chatgpt_auth.rs:424-443 | a load depends only on the manifest and the chunks of the generation it names |
| `VaultModel.StoredItemsChecked` | hosts/rust-daemon/src/chatgpt_auth.rs:368-423 | exactly which stored texts count as a manifest, a journal or a single-item credential; everything else is an error |
| `VaultModel.ChunkedLoadChecked` | hosts/rust-daemon/src/chatgpt_auth.rs:424-443 | a chunked load succeeds only with every chunk there and within its limits and a usable credential in them |
| `VaultModel.CurrentOfLoad` | hosts/rust-daemon/src/chatgpt_auth.rs:360-385 | the generation a load returns is the current one |
| `VaultModel.SingleItemLoads` | hosts/rust-daemon/src/chatgpt_auth.rs:391-423 | a stored single item decides every load of the single-item layout, whatever chunks lie beside it |
| `VaultModel.StageChunks` | hosts/rust-daemon/src/chatgpt_auth.rs:562-571 | writing chunks of a journaled inactive generation keeps the vault invariant and is invisible to every load |
| `VaultModel.PutJournal` | hosts/rust-daemon/src/chatgpt_auth.rs:554-561 | writing the journal for the previous and the new generation keeps the invariant when no older journal is pending |
| `VaultModel.PutManifest` | hosts/rust-daemon/src/chatgpt_auth.rs:572-575 | switching the manifest between generations the journal names keeps the invariant |
| `VaultModel.DeleteJournal` | hosts/rust-daemon/src/chatgpt_auth.rs:483-486 | the journal may go once every remaining chunk belongs to the active generation |
| `VaultModel.RecoveryKeeps` | hosts/rust-daemon/src/chatgpt_auth.rs:452-486 | a recovery, wherever it stops, keeps the invariant, the manifest, the single item and the result of every load, and adds no key |
| `VaultModel.InterleavedReadsNeverMix` | hosts/rust-daemon/src/chatgpt_auth.rs:389-443 | a reader that takes the manifest and then each chunk at any moments of any run of saves and disconnects returns the full credential of the manifest it read, or an error, only when a chunk was gone by the time it was read or the credential is unusable: never pieces of two generations |
| `CredentialVault.Vault.LoadChunks` | hosts/rust-daemon/src/chatgpt_auth.rs:424-443 | the reading loop returns the value of the pure load, or an error; the value whenever the store answers |
| `CredentialVault.Vault.Load` | hosts/rust-daemon/src/chatgpt_auth.rs:386-443 | single item first, chunks only when there is none |
| `CredentialVault.Vault.ReadManifest` | hosts/rust-daemon/src/chatgpt_auth.rs:360-385 | the active generation of whichever layout holds it, or an error |
| `CredentialVault.Vault.CleanChunks` | hosts/rust-daemon/src/chatgpt_auth.rs:444-451 | after every deletion only chunks of that generation are missing; success means none of them is left |
| `CredentialVault.Vault.RecoverCleanup` | hosts/rust-daemon/src/chatgpt_auth.rs:452-486 | under any read or write failure it changes no load, no manifest and no single item; it succeeds whenever the store answers, and then no journal is left |
| `CredentialVault.Vault.RemoveChunked` | hosts/rust-daemon/src/chatgpt_auth.rs:522-533 | success leaves at most the single item; the single item is never touched; every intermediate state keeps the invariant |
| `CredentialVault.Vault.Disconnect` | hosts/rust-daemon/src/chatgpt_auth.rs:579-586 | success leaves the vault with no key at all; wherever it stops the single item is the last to go; it succeeds whenever the store answers |
| `CredentialVault.Vault.SaveChunked` | hosts/rust-daemon/src/chatgpt_auth.rs:534-578 | with every write succeeding, failing without effect or failing after effect, all states along the way load exactly the old result up to one write and the complete new credential from it on; success means the new one is loaded, no journal is left and only its chunks are stored; with a store that answers it succeeds exactly when the payload fits |
| `CredentialVault.Vault.SaveSingle` | hosts/rust-daemon/src/chatgpt_auth.rs:496-521 | without effect of its one deciding write the vault is as before; with effect every later state of the save loads the new credential, whatever becomes of the old chunks; with a store that answers it succeeds exactly when the payload fits and leaves that one item |
| `CredentialVault.Vault.Save` | hosts/rust-daemon/src/chatgpt_auth.rs:487-495 | in either layout a save leaves the old load result or the new credential, and success means the new one |
| `CredentialVault.Vault.SaveRepeatedly` | hosts/rust-daemon/src/chatgpt_auth.rs:534-578 | over any number of chunked saves of usable credentials, each failing or dying anywhere, every state loads the initial result or one of the saved credentials, complete, and never an error; after a last success it is the last one |
| `CredentialVault.Vault.SaveWithoutAccount` | hosts/rust-daemon/src/chatgpt_auth.rs:487-495 | with a store that answers, a credential without an account id is saved successfully and every load after it is an error |
| `CredentialVault.Vault.NoOrphanedChunks` | hosts/rust-daemon/src/chatgpt_auth.rs:444-486 | in every state ever reached each stored chunk belongs to the active manifest or to a journaled generation, and to a generation that was issued |
| `CredentialVault.Vault.LegacyNeverResurfaces` | hosts/rust-daemon/src/chatgpt_auth.rs:391-423 | once a single item is stored, every load of the single-item layout returns a credential saved as a single item until the vault is completely empty |
| `SignIn.ChatGptAuth.LoginBegin` | hosts/rust-daemon/src/chatgpt_auth.rs:601-610 | a login start claims the next generation exactly when no login is pending |
| `SignIn.ChatGptAuth.LoginCheck` | hosts/rust-daemon/src/chatgpt_auth.rs:598-600 | before the lifecycle lock an unreadable vault ends the login; with a store that answers only that does |
| `SignIn.ChatGptAuth.LoginFinish` | hosts/rust-daemon/src/chatgpt_auth.rs:611-624 | a poller is spawned exactly when nothing overtook the login while the device request was out |
| `SignIn.ChatGptAuth.Poll` | hosts/rust-daemon/src/chatgpt_auth.rs:625-670 | a poller writes to the vault only with an issued credential and only if no login start, settled login or cancel happened since its own login started, and the login counts as saved exactly when the vault changed; a current poller with a credential does try, an overtaken one leaves everything alone |
| `SignIn.ChatGptAuth.Cancel` | hosts/rust-daemon/src/chatgpt_auth.rs:671-682 | every cancel moves the generation; a disconnect that returns Ok leaves an empty vault, and with a store that answers it does |
| `SignIn.ChatGptAuth.LoadAndMigrate` | hosts/rust-daemon/src/chatgpt_auth.rs:698-711 | migration writes only what was loaded from chunks, never into an empty vault; what is returned is what was stored, with the generation it is stored under: its own unless it was moved; with a store that answers a chunked login that fits ends up in the single item |
| `SignIn.ChatGptAuth.RefreshBegin` | hosts/rust-daemon/src/chatgpt_auth.rs:693-714 | the refresh captures the lifecycle generation with the stored generation that, with a store that answers, is the current one; an empty vault stays empty |
| `SignIn.ChatGptAuth.RefreshFinish` | hosts/rust-daemon/src/chatgpt_auth.rs:715-734 | a refreshed token is stored only if no fence event happened since the capture and, when fenced, only if the stored generation is the one that was loaded; otherwise nothing stops it, and success means it is what loads return |
| `SignIn.ChatGptAuth.RefreshUndisturbed` | hosts/rust-daemon/src/chatgpt_auth.rs:693-734 | with a store that answers and nothing in between, fenced or not, a refresh stores the new token and loads return it |
| `SignIn.ChatGptAuth.Restart` | hosts/rust-daemon/src/chatgpt_auth.rs:325-354 | a new process has no tasks, no pending login and generation zero; the vault guarantee carries over |
| `SignIn.SaveReconnects` | hosts/rust-daemon/src/chatgpt_auth.rs:625-670 | a poller that may still save belongs to a login started after the last disconnect |
| `SignIn.ChatGptAuth.OnePollerCanSave` | hosts/rust-daemon/src/chatgpt_auth.rs:598-670 | in every state at most one poller can still save, and none while a newer login is starting |
| `SignIn.ChatGptAuth.NothingResurrects` | hosts/rust-daemon/src/chatgpt_auth.rs:598-682 | after a disconnect that returned Ok, and in every interleaving, the vault is empty as long as no login started after it has been saved |
| `Leases.Registry.Fetch` | hosts/rust-daemon/src/agent_runs.rs:1586-1597 | looks the key up or registers a new lock object, under the registry mutex; all handles of the key share it |
| `Leases.Registry.CloneReference` | hosts/rust-daemon/src/agent_runs.rs:1598-1621 | the second reference an acquisition needs is counted |
| `Leases.Registry.TryAcquire` | hosts/rust-daemon/src/agent_runs.rs:1598-1608 | succeeds exactly when fewer than the capacity hold the lock, and then nobody is waiting, so it overtakes nobody |
| `Leases.Registry.Acquire` | hosts/rust-daemon/src/agent_runs.rs:1610-1660 | holds at once or joins the end of the queue |
| `Leases.Registry.Release` | hosts/rust-daemon/src/agent_runs.rs:281-297 | gives the permit to the longest waiting handle, or frees it |
| `Leases.Registry.Abandon` | hosts/rust-daemon/src/agent_runs.rs:1458-1462 | a dropped wait leaves exactly the other waiters, any two of them in the order they had |
| `Leases.Registry.DropReference` | hosts/rust-daemon/src/agent_runs.rs:281-297 | the guard's reference goes before the lease's own |
| `Leases.Registry.DropLease` | hosts/rust-daemon/src/agent_runs.rs:281-345 | the entry is removed exactly when this was the last handle of the key, and the lock object goes with it |
| `Leases.Registry.InUse` | hosts/rust-daemon/src/agent_runs.rs:1090-1105 | a room has an entry exactly while some run holds it, waits for it or is about to |
| `Leases.DropKeeps` | hosts/rust-daemon/src/agent_runs.rs:281-345 | a count of two means exactly that no other handle of the key is alive, so removing the entry is safe and leaving it would be a leak |
| `Leases.AtMostCapacityHolders` | hosts/rust-daemon/src/agent_runs.rs:1598-1660 | in every interleaving at most capacity handles of a key hold its lock |
| `Leases.OneHolderPerRoom` | hosts/rust-daemon/src/agent_runs.rs:272-280 | two handles that hold one (agent, room) are the same handle |
| `Leases.EmptyWhenIdle` | hosts/rust-daemon/src/agent_runs.rs:281-345 | once all leases are gone the registry has no entry and no lock object |
| `WaitingBudget.Budget.TryTake` | hosts/rust-daemon/src/agent_runs.rs:1117-1131 | a unit is taken exactly when fewer than 8 of the agent are in use, without waiting |
| `WaitingBudget.Budget.DropUnit` | hosts/rust-daemon/src/agent_runs.rs:248-261 | dropping a unit gives back that unit and no other |
| `WaitingBudget.NeverAboveTheLimit` | hosts/rust-daemon/src/agent_runs.rs:225-261 | the counter is the number of units in every interleaving, never above 8, and gone when the last unit is |
| `WaitOrder.SuspendsUpwards` | hosts/rust-daemon/src/agent_runs.rs:1392-1456 | every acquisition that suspends is for a resource later in room, slot, permit than anything already held |
| `WaitOrder.WhoWaits` | hosts/rust-daemon/src/agent_runs.rs:1413-1434 | for room and slot exactly the runs without a ticket wait whose room is not a delegated or peer one, for the permit exactly the accepted ones |
| `WaitOrder.OrderOfAcquisitions` | hosts/rust-daemon/src/agent_runs.rs:1392-1456 | what a task acquires next follows from what it holds: room, slot, permit, and for helpers permit, slot, room |
| `WaitOrder.TakenInTurn` | hosts/rust-daemon/src/agent_runs.rs:272-280 | a free unit goes to a suspended task if there is one, so nobody overtakes it |
| `WaitOrder.WaitsDescend` | hosts/rust-daemon/src/agent_runs.rs:1504-1569 | every wait points at a task nearer the end of the order, or at a younger nested run |
| `WaitOrder.NoWaitCycle` | hosts/rust-daemon/src/agent_runs.rs:1392-1456 | in every reachable state of any number of tasks no chain of waits closes, whatever rooms and entries the runs use |
| `WaitOrder.SomeTaskCanGoOn` | hosts/rust-daemon/src/agent_runs.rs:1392-1456 | in every state with a task some task can go on: it waits for nothing, or what it waits for is free and due to it |
| `WaitOrder.NestedWaitDeadlocks` | hosts/rust-daemon/src/agent_runs.rs:1504-1510 | the documented hazard: a run that starts a waiting run for its own room and awaits it is blocked together with it, whatever all other tasks do |
| `WaitOrder.Coordinator.Start` | hosts/rust-daemon/src/agent_runs.rs:1408-1436 | a run begins by acquiring its room, or its session queue does so for it; whether it waits follows from the room's kind and the entry it came in by |
| `WaitOrder.Coordinator.StartNested` | hosts/rust-daemon/src/agent_runs.rs:537-544 | a nested run for a peer or a delegate is awaited, began later than its parent, and never suspends |
| `WaitOrder.Coordinator.SpawnHelper` | hosts/rust-daemon/src/agent_runs.rs:805-812 | a helper takes its permit by trying, before it holds anything; it never suspends, and the run that spawned it may await it with others |
| `WaitOrder.Coordinator.Reserve` | hosts/rust-daemon/src/agent_runs.rs:1090-1105 | a room reservation is given exactly for a room that no run holds or is acquiring, and acquires nothing else |
| `WaitOrder.Coordinator.Acquire` | hosts/rust-daemon/src/agent_runs.rs:1424-1436 | an acquisition succeeds when a unit is free and not due to a suspended task; otherwise a waiting task is suspended with what it has and a trying one gives everything back |
| `WaitOrder.Coordinator.UseHanded` | hosts/rust-daemon/src/agent_runs.rs:1522-1542 | a handed lease of the request's own room replaces the wait; any other goes back before the wait |
| `WaitOrder.Coordinator.Finish` | hosts/rust-daemon/src/agent_runs.rs:281-345 | an ended or abandoned task gives back everything it held |
| `ExecutionLimits.IntersectSucceeds` | hosts/rust-daemon/src/execution_budgets.rs:510-560 | intersecting fails only on invalid arguments; re-validating the result never fails |
| `ExecutionLimits.MeetIsGreatest` | hosts/rust-daemon/src/execution_budgets.rs:510-560 | the intersection lies within both arguments, keeps retries within attempts, and everything that does so lies within it |
| `ExecutionLimits.MeetCommutes` | hosts/rust-daemon/src/execution_budgets.rs:510-560 | the order of the two arguments does not matter |
| `ExecutionLimits.MeetAssociates` | hosts/rust-daemon/src/execution_budgets.rs:510-560 | grouping does not matter |
| `ExecutionLimits.MeetAllIsGreatest` | hosts/rust-daemon/src/execution_budgets.rs:562-594 | applying any list of limits gives the greatest limits below all of them |
| `ExecutionLimits.MeetAllOrderFree` | hosts/rust-daemon/src/execution_budgets.rs:562-594 | neither order nor repetition of the limits applied matters |
| `BudgetRegistry.DefaultScopeOpens` | packages/core-rust/crates/anima-core/src/execution_limits.rs:177-208 | under the default limits a scope opens exactly for valid names and a deadline that fits |
| `BudgetRegistry.OpenedScope` | packages/core-rust/crates/anima-core/src/execution_limits.rs:177-208 | a new scope has the limits it was opened with, their whole wall time ahead, and nothing on record |
| `BudgetRegistry.RootOpensScope` | hosts/rust-daemon/src/execution_budgets.rs:222-245 | a root run that is new to the registry opens exactly that scope |
| `BudgetRegistry.ValidBounds` | hosts/rust-daemon/src/execution_budgets.rs:133-157 | a valid registry has at most 8192 scopes and 65536 bindings, each to a scope that exists, under valid names |
| `BudgetRegistry.RetainsReflexive` | hosts/rust-daemon/src/execution_budgets.rs:40-132 | a registry retains itself exactly when it is valid |
| `BudgetRegistry.RetainsTransitive` | hosts/rust-daemon/src/execution_budgets.rs:40-132 | evidence kept twice is kept |
| `BudgetRegistry.InheritScope` | hosts/rust-daemon/src/execution_budgets.rs:185-207 | the walk over the lineage accepts exactly when all sources are bound, none is the run itself, and all agree |
| `BudgetRegistry.PrepareBindingKeeps` | hosts/rust-daemon/src/execution_budgets.rs:185-258 | a successful binding gives a valid registry that retains the old one, one generation further exactly when something was added, with the run in the scope of all its lineage sources |
| `BudgetRegistry.PrepareBindingSucceeds` | hosts/rust-daemon/src/execution_budgets.rs:185-258 | for a valid registry and an agreed lineage a binding is refused exactly when there is no room, no usable opening or no allowance: re-validating the result never refuses |
| `BudgetRegistry.ExtendBinds` | hosts/rust-daemon/src/execution_budgets.rs:185-258 | the run shares the scope of every lineage source, or roots a scope of its own |
| `BudgetAdmission.TightenScopeKeeps` | hosts/rust-daemon/src/execution_budgets.rs:477-508 | tightening keeps a scope valid, loosens neither limits nor deadline, and moves the version exactly when something changed |
| `BudgetAdmission.TightenScopeIdempotent` | hosts/rust-daemon/src/execution_budgets.rs:477-508 | repeating the same limits changes nothing, not even the version |
| `BudgetAdmission.TightenCandidateKeeps` | hosts/rust-daemon/src/execution_budgets.rs:477-508 | the tightened candidate retains the registry, binds the same run and is at most one generation ahead |
| `BudgetAdmission.TightenCandidateSucceeds` | hosts/rust-daemon/src/execution_budgets.rs:477-508 | re-validating a tightened candidate never fails |
| `BudgetAdmission.RefreshOwnerLimits` | hosts/rust-daemon/src/execution_budgets.rs:562-594 | the loop over owners applies each configured limit once, in order |
| `BudgetAdmission.TightenScopeAllMeets` | hosts/rust-daemon/src/execution_budgets.rs:562-594 | however many limits apply, the scope ends under their meet and the earliest deadline |
| `BudgetAdmission.OwnerOrderIsImmaterial` | hosts/rust-daemon/src/execution_budgets.rs:562-594 | the order of owners does not affect the resulting limits and deadline |
| `BudgetAdmission.OwnersSucceed` | hosts/rust-daemon/src/execution_budgets.rs:562-594 | with room for their versions the owners' limits apply exactly when every owner is known and its limits are valid |
| `BudgetAdmission.OwnersLimit` | hosts/rust-daemon/src/execution_budgets.rs:562-594 | every owner whose limits apply exists, and the scope ends within the limits of each |
| `BudgetAdmission.OwnerSuccessIsOrderFree` | hosts/rust-daemon/src/execution_budgets.rs:562-594 | so success does not depend on the order of owners either |
| `BudgetAdmission.VersionsAgree` | hosts/rust-daemon/src/execution_budgets.rs:477-508 | two owners give a scope the same version in both orders, except exactly when both restrict it and one of them, once applied, leaves nothing to the other but not the other way round |
| `BudgetAdmission.OrderChangesVersion` | hosts/rust-daemon/src/execution_budgets.rs:477-508 | on every scope with two tool calls to lose there are two limits whose orders give different versions |
| `BudgetHost.AdoptKeeps` | hosts/rust-daemon/src/execution_budgets.rs:267-300 | binding a never-started legacy source first loses nothing and puts it in the scope of all its own lineage |
| `BudgetHost.PrepareRunKeeps` | hosts/rust-daemon/src/execution_budgets.rs:267-319 | a prepared admission retains the live registry, binds the run together with its parent, its recovery source, its helper parent and both runs of a completion to one scope, an adopted source with all of its own likewise, within the limits of the run's agent and of the root's agent, and never in a latched scope |
| `BudgetHost.LineageIsOrigins` | hosts/rust-daemon/src/execution_budgets.rs:159-175 | the lineage is exactly the runs a record names: parent, recovery source, helper parent and both runs of a completion |
| `BudgetHost.AdmissionRefuses` | hosts/rust-daemon/src/execution_budgets.rs:267-319 | an unowned profile, a recovery source that is unknown or left evidence, and an unbound run that already left evidence are refused |
| `BudgetHost.PrepareOperationKeeps` | hosts/rust-daemon/src/execution_budgets.rs:177-184 | an operation outside any run gets a scope of its own, within the limits its caller asks for, and loses nothing |
| `BudgetHost.RegistryIsLawful` | hosts/rust-daemon/src/execution_budgets.rs:40-132 | the registry's evidence order has the laws that publication relies on |
| `BudgetHost.AdmissionIsPublishable` | hosts/rust-daemon/src/execution_budgets.rs:267-372 | what admission prepares from the live registry, adopted edges included, is what publication relies on |
| `BudgetHost.BudgetState.SaveAdmission` | hosts/rust-daemon/src/execution_budgets.rs:324-372 | with the save succeeding, failing without effect, failing after effect or panicking, a candidate that retains the live registry is published, every earlier live registry and the durable copy stay retained, and an unconfirmed scope is latched |
| `BudgetHost.AdmitRun` | hosts/rust-daemon/src/execution_budgets.rs:267-372 | preparing a run from the live registry and publishing it: the live registry afterwards retains the one before and the durable copy, whatever becomes of the write; the run and every origin it names share a scope and are recorded, an adopted source likewise; a scope that was latched is never entered; a refusal changes nothing |
| `BudgetHost.AdmitOperation` | hosts/rust-daemon/src/execution_budgets.rs:440-475 | the same for an operation outside any run |
| `BudgetHost.BudgetState.SaveSnapshot` | hosts/rust-daemon/src/execution_budgets.rs:324-372 | an ordinary snapshot never makes the durable copy lose evidence |
| `BudgetHost.BudgetState.Restart` | hosts/rust-daemon/src/execution_budgets.rs:133-157 | a restart continues from the durable copy with its lineages intact |
| `BudgetHost.BudgetState.DescendantsShareScope` | hosts/rust-daemon/src/execution_budgets.rs:185-258 | in every state all descendants of a run along any chain of admissions and adoptions share its scope |
| `BudgetLedger.MergeIsLeast` | packages/core-rust/crates/anima-core/src/execution_limits.rs:532-545 | merging observed usage is the least upper bound in the order in which usage is retained |
| `BudgetLedger.ReserveKeeps` | packages/core-rust/crates/anima-core/src/execution_limits.rs:248-282 | a granted reservation adds itself, retains everything and keeps the scope valid; a repeated one changes nothing |
| `BudgetLedger.ReserveGrants` | packages/core-rust/crates/anima-core/src/execution_limits.rs:248-282 | a new operation is granted only from the scope's creation to before its deadline and with allowance, and is on record then without usage; a repeated request exactly when it is the same |
| `BudgetLedger.SettleKeeps` | packages/core-rust/crates/anima-core/src/execution_limits.rs:284-340 | a settlement keeps the scope valid, and retains all evidence exactly when the usage seen for the reservation covers what an earlier settlement of it recorded |
| `BudgetLedger.SettleRecords` | packages/core-rust/crates/anima-core/src/execution_limits.rs:284-340 | a settlement changes its own reservation only: a final outcome stays, an unknown one becomes known or gathers usage, retirement and observed usage never go back |
| `BudgetLedger.ConflictIsRefused` | packages/core-rust/crates/anima-core/src/execution_limits.rs:304-326 | a settlement that contradicts the one on record is refused |
| `BudgetLedger.SettleRetains` | packages/core-rust/crates/anima-core/src/execution_limits.rs:284-340 | in scopes that only reservations and settlements have written, every settlement retains all evidence and keeps them so |
| `BudgetLedger.SettleTwice` | packages/core-rust/crates/anima-core/src/execution_limits.rs:284-340 | repeating a settlement changes nothing, not even the version |
| `BudgetLedger.UnseenUsageIsLost` | packages/core-rust/crates/anima-core/src/execution_limits.rs:284-340 | an input outside that condition on which a settlement loses evidence |
| `BudgetLedger.AdmissionSettled` | hosts/rust-daemon/src/execution_budgets.rs:267-319 | admissions keep scopes in the form that reservations and settlements write |
| `BudgetLedger.AccountRetains` | hosts/rust-daemon/src/execution_budgets/port.rs:114-219 | what a run prepares for its scope, tightened by its owners first, retains the live registry |
| `BudgetLedger.OthersAreRefused` | hosts/rust-daemon/src/execution_budgets/port.rs:169-193 | a run reserves only for itself, and only the run that reserved an operation settles it |
| `BudgetLedger.ReservationGoverned` | hosts/rust-daemon/src/execution_budgets/port.rs:157-160 | a reservation is made under the limits its owners have now |
| `BudgetLedger.RecordUsage` | hosts/rust-daemon/src/execution_budgets/port.rs:114-227 | reserving or settling and publishing: the live registry afterwards retains the one before and the durable copy, whatever becomes of the write |
| `JobRecords.NewIsGood` | hosts/rust-daemon/src/jobs.rs:260-292 | a created job passes the check a restart makes of it |
| `JobRecords.NewWrites` | hosts/rust-daemon/src/jobs.rs:260-292 | a new job waits for approval exactly when it needs one, with nothing else on record |
| `JobRecords.StatusGroups` | hosts/rust-daemon/src/jobs.rs:795-804 | which states are active, executing and settled |
| `JobRecords.CancelKeeps` | hosts/rust-daemon/src/jobs.rs:297-320 | cancelling keeps the record valid and takes nothing back |
| `JobRecords.CancelWrites` | hosts/rust-daemon/src/jobs.rs:297-320 | accepted exactly for a queued job or a proposal; only status, revision and times change |
| `JobRecords.RetryKeeps` | hosts/rust-daemon/src/jobs.rs:322-367 | a retry keeps the record valid and its history, drops the approval and the stop marker, and stays below the attempt limit |
| `JobRecords.RetryWrites` | hosts/rust-daemon/src/jobs.rs:322-367 | accepted exactly below the attempt limit for a failed job, an uncertain one with acknowledgement, or one sent back; outcome, approval, stop and times go, the history stays |
| `JobRecords.ApproveKeeps` | hosts/rust-daemon/src/jobs.rs:369-394 | an approval makes a valid queued job, approved after its last retry |
| `JobRecords.ApproveWrites` | hosts/rust-daemon/src/jobs.rs:369-394 | accepted exactly for a proposal, which is queued with the time of the approval |
| `JobRecords.ClaimKeeps` | hosts/rust-daemon/src/jobs.rs:630-661 | a claim raises the attempt by one within the limit and follows a retry of any earlier claim |
| `JobRecords.ClaimWrites` | hosts/rust-daemon/src/jobs.rs:645-661 | accepted exactly for a queued job below its limit with the approval it needs; the attempt rises by one |
| `JobRecords.RequestStopKeeps` | hosts/rust-daemon/src/state/run_stop.rs:393-409 | a stop marker changes nothing else of a running attempt |
| `JobRecords.RequestStopWrites` | hosts/rust-daemon/src/state/run_stop.rs:401-408 | the marker goes on exactly the attempt that is running, once |
| `JobRecords.RecordStopKeeps` | hosts/rust-daemon/src/jobs.rs:871-896 | a stopped attempt needs review and its history says stopped |
| `JobRecords.SettleUncertainKeeps` | hosts/rust-daemon/src/jobs.rs:899-913 | an attempt of unknown outcome needs review, recorded as stopped exactly when a stop was requested |
| `JobRecords.SettleUncertainWrites` | hosts/rust-daemon/src/jobs.rs:862-913 | the record and its new history entry give the reason, or that the owner stopped it; the result stays |
| `JobRecords.CommitKeeps` | hosts/rust-daemon/src/jobs.rs:699-738 | a commit settles the attempt as completed or failed as the run says, unless stopped, cancelled or uncertain; recorded as stopped exactly when stopped or cancelled |
| `JobRecords.CommitWrites` | hosts/rust-daemon/src/jobs.rs:699-738 | accepted exactly against the running claim it was made for; the run's result and error, whole or cut at 65536 characters, go into the record and the same into its new history entry, marked truncated when cut; stopped and uncertain commits keep the claim's result |
| `JobRecords.ReviewOutputKeeps` | hosts/rust-daemon/src/jobs.rs:408-469 | a review changes the newest history entry and nothing else of the history |
| `JobRecords.ReviewOutputWrites` | hosts/rust-daemon/src/jobs.rs:408-469 | accepted exactly for the unreviewed newest output of a completed job; the decision on record is the one given |
| `JobRecords.FewAttempts` | hosts/rust-daemon/src/jobs/records.rs:185-207 | a history of increasing attempt numbers has at most as many entries as the record has attempts |
| `Jobs.JobService.Mutate` | hosts/rust-daemon/src/jobs.rs:90-136 | all or nothing: acknowledged, memory and disk hold the candidate; otherwise memory is as before |
| `Jobs.JobService.Create` | hosts/rust-daemon/src/jobs.rs:191-295 | a repeated request returns the job it made, a reused key with other input is refused, and a new request adds exactly one job when there is room |
| `Jobs.JobService.Cancel` | hosts/rust-daemon/src/jobs.rs:297-320 | succeeds exactly for the owner's current revision of a queued or proposed job whose change is saved |
| `Jobs.JobService.Retry` | hosts/rust-daemon/src/jobs.rs:322-367 | succeeds exactly within capacity and the record's own rules; a refusal changes nothing |
| `Jobs.JobService.Approve` | hosts/rust-daemon/src/jobs.rs:369-394 | succeeds exactly for a proposal, within capacity |
| `Jobs.JobService.ReviewOutput` | hosts/rust-daemon/src/jobs.rs:408-469 | succeeds exactly for an unreviewed completed output |
| `Jobs.JobService.Claim` | hosts/rust-daemon/src/jobs.rs:630-671 | a claim is saved before a worker exists, and only if no worker of the agent is alive |
| `Jobs.JobService.Begin` | hosts/rust-daemon/src/jobs.rs:663-690 | the run of a saved claim is recorded as begun once |
| `Jobs.JobService.Commit` | hosts/rust-daemon/src/jobs.rs:676-755 | the claim cannot have changed under its worker, so a commit is never refused; a saved one records the run's own outcome; after a failed save the claim is back, with any stop request |
| `Jobs.JobService.SettleBroken` | hosts/rust-daemon/src/jobs.rs:754-771 | a run without a saved commit is settled as uncertain, or left to memory when that cannot be saved |
| `Jobs.JobService.SettleInMemory` | hosts/rust-daemon/src/jobs.rs:772-791 | the uncertainty is kept in memory when nothing can be saved |
| `Jobs.JobService.RequestStop` | hosts/rust-daemon/src/agent_runs/stop.rs:159-196 | an acknowledged stop is durable and counted; a failed save leaves no marker in memory |
| `Jobs.JobService.Restart` | hosts/rust-daemon/src/state.rs:3239-3264 | whenever the process ends, the saved jobs pass the check of a start-up |
| `Jobs.JobService.Start` | hosts/rust-daemon/src/jobs.rs:487-506 | every attempt left running is settled as needing review, stopped if a stop was saved; nothing else changes and none is run again |
| `Jobs.SettleInterrupted` | hosts/rust-daemon/src/jobs.rs:487-505 | the loop over interrupted jobs settles each of them and keeps the snapshot valid |
| `Jobs.JobService.Dispatch` | hosts/rust-daemon/src/jobs.rs:601-672 | a pass over the queue only claims, and only jobs of the queue |
| `Jobs.AtMostOnce` | hosts/rust-daemon/src/jobs.rs:630-690 | over all crashes, restarts and failed or uncertain saves no (job, attempt) runs twice and no job runs more often than its limit of at most 3 |
| `Jobs.StopsAreRecorded` | hosts/rust-daemon/src/jobs.rs:871-913 | an acknowledged stop is never lost, in memory or on disk: unless the attempt still runs, its history says it was stopped |
| `Jobs.EverySnapshotLoads` | hosts/rust-daemon/src/state.rs:3239-3264 | every saved snapshot passes the start-up check; its queued jobs that need approval were approved after their last retry, and between two claims there was a retry |
| `Jobs.OneJobChanges` | hosts/rust-daemon/src/jobs.rs:795-815 | changing one job through an operation that keeps it good, within capacity, keeps at most 8 active and 200 jobs with distinct request keys |
| `Reviews.Evict` | hosts/rust-daemon/src/chat_review.rs:303-305 | the newest 19 rows stay when there is no room |
| `Reviews.InterruptOnRestore` | hosts/rust-daemon/src/chat_review.rs:96-105 | exactly the running rows become interrupted without findings |
| `Reviews.ReviewSession.Request` | hosts/rust-daemon/src/chat_review.rs:149-361 | a repeated request id with a retained row returns that row or a conflict and starts nothing; a new one is admitted exactly when the session is eligible, no review runs, the answer is there and the save is acknowledged, with a worker only when available |
| `Reviews.ReviewSession.Admit` | hosts/rust-daemon/src/chat_review.rs:296-361 | the row is published and its worker spawned only after an acknowledged save |
| `Reviews.ReviewSession.Cancel` | hosts/rust-daemon/src/chat_review.rs:363-417 | a cancellation is published and signalled exactly when it was saved: a running row becomes cancelled without findings and its task is signalled, any other row stays as it is |
| `Reviews.ReviewSession.Finish` | hosts/rust-daemon/src/chat_review.rs:419-484 | settles a running row once; a failed save shows a failed row without findings, a later settlement changes nothing; an unconfirmed write of findings is remembered until a later write covers it |
| `Reviews.ReviewSession.CheckDispatch` | hosts/rust-daemon/src/chat_review.rs:528-558 | the model is called exactly for a review that is still running, not cancelled, of the same conversation, under an owned profile; any other ends cancelled without findings |
| `Reviews.WantedMeans` | hosts/rust-daemon/src/chat_review.rs:528-540 | a review is wanted while its row is running and the conversation is the one it was captured from |
| `Reviews.ReviewSession.Watch` | hosts/rust-daemon/src/chat_review.rs:559-602 | a review that is no longer wanted or owned is signalled and nothing else; an overdue one is signalled and fails; any other is left alone |
| `Reviews.ReviewSession.AbortFinish` | hosts/rust-daemon/src/chat_review.rs:663-663 | a watcher aborted inside its save may leave a timed-out row on disk and a running one in memory; the guarantees stand |
| `Reviews.ReviewSession.Return` | hosts/rust-daemon/src/chat_review.rs:663-718 | a cancelled call ends cancelled; otherwise a valid opinion completes and anything else fails |
| `Reviews.ReviewSession.Leave` | hosts/rust-daemon/src/chat_review.rs:663-718 | when a task ends its row is settled, by it or before it, with all that a settlement does, and its slot is free |
| `Reviews.ReviewSession.Clear` | hosts/rust-daemon/src/agent_runs/main_chat_clear.rs:868-916 | a saved clear removes the rows, begins a new generation and signals every task of the old one |
| `Reviews.ReviewSession.Restart` | hosts/rust-daemon/src/chat_review.rs:96-105 | nothing runs after a restart, settled rows are as saved, and the unacknowledged findings in memory are exactly those an unconfirmed write left on disk |
| `Reviews.SettlesOnce` | hosts/rust-daemon/src/chat_review.rs:149-484 | in every interleaving at most one row runs, at most 20 rows are kept, no row leaves running twice in a process, no review calls the model twice |
| `Reviews.FindingsAreAcknowledged` | hosts/rust-daemon/src/chat_review.rs:419-484 | findings belong to a completed row whose review called the model; the unacknowledged ones on disk are exactly those of unconfirmed saves that no later write covered, the ones in memory exactly those a restart brought back |
| `Reviews.FailedReviewReturns` | hosts/rust-daemon/src/chat_review.rs:419-484 | that exception is real: every admitted review that is still wanted, whose call returns an opinion and whose save is reported as failed after it took effect, is shown failed and comes back completed with findings after a restart |
| `Results.UpsertChecks` | hosts/rust-daemon/src/chat_results.rs:288-394 | a failed upsert leaves the results unchanged; a successful one leaves a session that passes the check and holds the answer |
| `Results.UpdateWrites` | hosts/rust-daemon/src/chat_results.rs:360-376 | an update is accepted against the current revision only, raises it by one, and leaves every other result alone |
| `Results.CreateWrites` | hosts/rust-daemon/src/chat_results.rs:377-388 | a new request adds one result, unpinned and at revision one, under the name its digest gives |
| `Results.ReplayAnswers` | hosts/rust-daemon/src/chat_results.rs:330-359 | a repeated request is answered with the result on record for it, of the same content and id, and changes nothing |
| `Results.UpsertKeepsRequests` | hosts/rust-daemon/src/chat_results.rs:346-359 | (request key, source run) pairs stay distinct |
| `Results.PinKeeps` | hosts/rust-daemon/src/chat_results.rs:396-421 | a pin keeps identities, ownership, revisions and times valid and the pairs distinct; a failed one changes nothing |
| `Results.PinWrites` | hosts/rust-daemon/src/chat_results.rs:396-421 | a pin is accepted against the current revision only, raises it by one and changes nothing of the content |
| `Results.UpsertReplays` | hosts/rust-daemon/src/chat_results.rs:315-359 | repeating a successful upsert next, from any call and at any clock reading, returns the same result and changes nothing |
| `Results.CreateNeverRepeats` | hosts/rust-daemon/src/chat_results.rs:315-345 | after any run of upserts and pins, a create request once answered with the result it names is answered with that result or refused, and adds nothing |
| `Results.AnsweredByAnotherAddsLater` | hosts/rust-daemon/src/chat_results.rs:346-359 | a create request answered with the result of an update instead adds a result of its own once that result is updated under another request |
| `Results.Conversation.Save` | hosts/rust-daemon/src/chat_results.rs:288-394 | the edit in place with its restore is the upsert function |
| `Results.Conversation.SetPinned` | hosts/rust-daemon/src/chat_results.rs:396-421 | the edit in place is the pin function |
| `Calculations.Validate` | hosts/rust-daemon/src/chat_results.rs:231-255 | the walk with one threaded counter accepts exactly the trees of height at most 8 below the root and at most 64 nodes whose inputs are known and constants safe, and counts every node |
| `Logs.LogBuffer.Push` | hosts/rust-daemon/src/logs.rs:162-186 | a push is numbered next, stored as one of the newest lines and sent to every stream |
| `Logs.LogBuffer.SubscribeAfter` | hosts/rust-daemon/src/logs.rs:234-247 | the backlog is a contiguous piece of the history ending at the newest line, and the receiver starts right after it |
| `Logs.LogBuffer.Receive` | hosts/rust-daemon/src/logs.rs:234-247 | a receiver gets the next line, or learns how many it missed and goes on behind them with what it has shown unchanged |
| `Logs.NoGap` | hosts/rust-daemon/src/logs.rs:162-247 | in every interleaving an unlagged stream has shown exactly the lines the buffer retained after its cursor when it joined, then every later push up to its receiver, once each and in order |
| `Logs.RingHoldsNewest` | hosts/rust-daemon/src/logs.rs:162-186 | the buffer holds exactly the last min(n, capacity) lines with consecutive numbers |
| `Logs.NewestAreLast` | hosts/rust-daemon/src/logs.rs:188-220 | reading backwards, cutting off and reversing gives the last matches in order |
| `Logs.SelectMeans` | hosts/rust-daemon/src/logs.rs:188-220 | a selection has exactly the lines after the cursor that match |
| `Logs.SelectAscends` | hosts/rust-daemon/src/logs.rs:188-220 | a selection is in the order of the buffer |
| `Logs.MatchesMeans` | hosts/rust-daemon/src/logs.rs:111-124 | a line matches when its level is no lower and the query occurs in its message or target, in lower case |
| `Logs.LogBuffer.AllPages` | hosts/rust-daemon/src/logs.rs:207-214 | paging by the last number seen lists every retained match once, in order |
| `Logs.BacklogIsSuffix` | hosts/rust-daemon/src/logs.rs:234-247 | selecting by number and being the end of the history are the same |

## Left out

- Network, keyring, Postgres, files and process spawning: they appear only as arbitrary outcomes.
- Prompts, tools, MCP, memory and compaction inside a run, and the run ledger: a run is an outcome.
- Consumption and allowance arithmetic of an execution scope: whether a scope still has allowance is an arbitrary predicate; the latching of a scope that a reservation finds exhausted is not modelled.
- Delegation commits, goals and workflows of jobs: no job of the model belongs to a workflow or waits for delegations; deleting an agent with its jobs is not modelled.
- Text limits of jobs, reviews and results (lengths, blanks, control characters): one arbitrary check per request; previews are cut by characters, not bytes.
- Sanitizing, redaction and truncation of log lines, Unicode lower-casing (`Logs.Lower` covers the Latin letters), stream slots and the rounding of the channel size to a power of two.
- Payload checks of charts, comparisons and documents: they would only add easy members.
- Cryptographic strength, secret zeroizing, the web and command-line clients, configuration and provider catalogs.
- Results.PinKeeps: does not state the size clause of the session check, because a pin does not check it again.
- Results.UpsertReplays: the digest that names a created result is an arbitrary function; a collision of two requests is answered as a repeated request.
- WaitOrder.Coordinator.Acquire: which of several suspended tasks is served first is not stated here; that the locks serve them in order is stated in module Leases.
- Jobs.JobService.Dispatch: the order of the queue (by creation time and id) is a parameter, because no stated property depends on it.
- BudgetHost.BudgetState.DescendantsShareScope: an admission that the durable copy never learned of is forgotten by a restart, so the chain is over admissions the live registry knows.
- CredentialVault.Vault.SaveRepeatedly: for credentials with nonempty tokens and account id; others are saved but refused by every load, as stated above.
- BudgetLedger.RecordUsage: for registries whose settlements have seen what their reservations have, which holds of everything admissions, reservations and settlements write.
