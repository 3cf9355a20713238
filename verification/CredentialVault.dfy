/**
 The vault operations of the ChatGPT sign-in, step by step, over a store whose every access may fail.

 A write reports success, fails without effect, or fails although it took effect. A process that dies
 between two writes leaves what a failing next write would leave, because every failure abandons the
 operation. `trace` records the contents after every write, so what is stated of each element of `trace`
 holds wherever the process stops; restarting loses nothing but local variables.
 */
module CredentialVault {
  import opened Wrappers
  import opened VaultText
  import opened VaultModel

  /** The single item is the last key to leave the vault. */
  ghost predicate SingleLeavesLast(before: Items, after: Items) {
    SingleKey in before && SingleKey !in after ==> after == map[]
  }

  /** What a load returns once a save of either layout is in effect. */
  function Saved(codec: Codec, layout: Layout, generation: string, c: Credential): Loaded {
    if layout == Single then CompleteSingle(generation, c) else Complete(codec, generation, c)
  }

  /** What a save accepts: a payload of at most 65536 bytes. */
  predicate Fits(codec: Codec, layout: Layout, generation: string, c: Credential) {
    Utf8Len(if layout == Single then codec.writeStored(StoredCredential(2, generation, c)) else codec.writeCredential(c)) <= MAX_PAYLOAD_BYTES
  }

  class Vault {
    const codec: Codec
    const layout: Layout
    var items: Items
    /** While it holds, the store answers every access; otherwise any access may fail. */
    var healthy: bool
    ghost var trace: seq<Items>
    ghost var issued: Issued
    ghost var singles: Issued

    ghost predicate Tracked()
      reads this
    {
      |trace| > 0 && trace[|trace| - 1] == items
    }

    ghost predicate Valid()
      reads this
    {
      && Lawful(codec) && WellIssued(codec, issued) && Tracked()
      && (forall i | 0 <= i < |trace| :: Inv(codec, issued, singles, trace[i]))
      && (forall i | 0 < i < |trace| :: SingleLeavesLast(trace[i - 1], trace[i]))
    }

    /** From trace position `from` up to `to`, a chunked load returns `outcome`. */
    ghost predicate Loads(from: nat, to: nat, outcome: Loaded)
      reads this
    {
      from <= to <= |trace| && forall i | from <= i < to :: LoadChunked(codec, trace[i]) == outcome
    }

    /** Since trace position `from`, chunked loads and the single item are those of `base`. */
    ghost predicate Undisturbed(from: nat, base: Items)
      reads this
    {
      forall i | from <= i < |trace| ::
        LoadChunked(codec, trace[i]) == LoadChunked(codec, base) && Lookup(trace[i], SingleKey) == Lookup(base, SingleKey)
    }

    constructor (codec: Codec, layout: Layout)
      requires Lawful(codec)
      ensures Valid() && this.codec == codec && this.layout == layout
      ensures items == map[] && trace == [map[]] && issued == map[] && singles == map[]
    {
      this.codec := codec;
      this.layout := layout;
      items := map[];
      healthy := false;
      trace := [map[]];
      issued := map[];
      singles := map[];
    }

    // ------------------------------------------------------------ store access

    method Fetch(key: Key) returns (r: Result<Option<string>>)
      ensures r == Err || r == Ok(Lookup(items, key))
      ensures healthy ==> r.Ok?
    {
      var answered := *;
      if !healthy && !answered {
        r := Err;
      } else {
        r := Ok(Lookup(items, key));
      }
    }

    method Put(key: Key, value: string) returns (ok: bool)
      requires Tracked()
      modifies this`items, this`trace
      ensures ok ==> items == old(items)[key := value]
      ensures items == old(items) || items == old(items)[key := value]
      ensures trace == old(trace) + [items]
      ensures healthy ==> ok
    {
      var reported, applied := *, *;
      reported := reported || healthy;
      if reported || applied {
        items := items[key := value];
      }
      trace := trace + [items];
      ok := reported;
    }

    method Delete(key: Key) returns (ok: bool)
      requires Tracked()
      modifies this`items, this`trace
      ensures ok ==> items == old(items) - {key}
      ensures items == old(items) || items == old(items) - {key}
      ensures trace == old(trace) + [items]
      ensures healthy ==> ok
    {
      var reported, applied := *, *;
      reported := reported || healthy;
      if reported || applied {
        items := items - {key};
      }
      trace := trace + [items];
      ok := reported;
    }

    // ------------------------------------------------------------ loads

    method ReadChunkManifest() returns (r: Result<Option<Manifest>>)
      ensures r == Err || r == ChunkManifest(codec, items)
      ensures healthy ==> r == ChunkManifest(codec, items)
    {
      var item := Fetch(AccountKey);
      r := if item.Err? then Err else ParseManifest(codec, item.value);
    }

    method LoadChunks() returns (r: Loaded)
      ensures r == Err || r == LoadChunked(codec, items)
      ensures healthy ==> r == LoadChunked(codec, items)
    {
      var manifest := ReadChunkManifest();
      if manifest.Err? || manifest.value.None? {
        return if manifest.Err? then Err else Ok(None);
      }
      var m := manifest.value.value;
      var payload := "";
      var index := 0;
      ghost var found := ChunkReads(items, m);
      assert found[0..] == found;
      while index < m.chunks
        invariant 0 <= index <= m.chunks
        invariant Assemble(found[index..], payload) == Assemble(found, "")
      {
        var chunk := Fetch(ChunkKey(m.generation, index));
        if chunk.Err? || chunk.value.None? {
          return Err;
        }
        if Utf8Len(chunk.value.value) > MAX_PIECE_BYTES || Utf8Len(payload) + Utf8Len(chunk.value.value) > MAX_PAYLOAD_BYTES {
          return Err;
        }
        assert found[index..][1..] == found[index + 1..];
        payload := payload + chunk.value.value;
        index := index + 1;
      }
      assert found[index..] == [];
      r := Interpret(codec, m, Ok(payload));
    }

    method Load() returns (r: Loaded)
      ensures r == Err || r == LoadAny(codec, layout, items)
      ensures healthy ==> r == LoadAny(codec, layout, items)
    {
      if layout == Single {
        var item := Fetch(SingleKey);
        if item.Err? {
          return Err;
        }
        r := ParseSingle(codec, item.value);
        if r != Ok(None) {
          return;
        }
      }
      r := LoadChunks();
    }

    method ReadManifest() returns (r: Result<Option<Manifest>>)
      ensures r == Err || r == CurrentManifest(codec, layout, items)
      ensures healthy ==> r == CurrentManifest(codec, layout, items)
    {
      if layout == Single {
        var item := Fetch(SingleKey);
        if item.Err? {
          return Err;
        }
        var single := ParseSingle(codec, item.value);
        if single != Ok(None) {
          return if single.Err? then Err else Ok(Some(single.value.value.0));
        }
      }
      r := ReadChunkManifest();
    }

    // ------------------------------------------------------------ cleanup

    /** Deletes the chunks of a generation one by one, stopping at the first failure. */
    method CleanChunks(m: Manifest) returns (ok: bool)
      requires Tracked()
      modifies this`items, this`trace
      ensures Tracked() && old(trace) <= trace
      ensures forall i | |old(trace)| <= i < |trace| :: Without(old(items), trace[i], g => g == m.generation)
      ensures Without(old(items), items, g => g == m.generation)
      ensures ok ==> forall i | 0 <= i < m.chunks :: ChunkKey(m.generation, i) !in items
      ensures healthy ==> ok
    {
      var index := 0;
      while index < m.chunks
        invariant 0 <= index <= m.chunks
        invariant Tracked() && old(trace) <= trace
        invariant Without(old(items), items, g => g == m.generation)
        invariant forall i | |old(trace)| <= i < |trace| :: Without(old(items), trace[i], g => g == m.generation)
        invariant forall i | 0 <= i < index :: ChunkKey(m.generation, i) !in items
      {
        var deleted := Delete(ChunkKey(m.generation, index));
        if !deleted {
          return false;
        }
        index := index + 1;
      }
      ok := true;
    }

    /** Deletes every journaled generation but the active one; `gone` holds of exactly those it may touch. */
    method CleanJournal(journal: seq<Manifest>, active: Option<Manifest>, ghost gone: string -> bool) returns (ok: bool)
      requires Tracked()
      requires forall m | m in journal :: gone(m.generation) <==> active.None? || active.value.generation != m.generation
      modifies this`items, this`trace
      ensures Tracked() && old(trace) <= trace
      ensures forall i | |old(trace)| <= i < |trace| :: Without(old(items), trace[i], gone)
      ensures Without(old(items), items, gone)
      ensures ok ==> forall m, i | m in journal && 0 <= i < m.chunks && gone(m.generation) :: ChunkKey(m.generation, i) !in items
      ensures healthy ==> ok
    {
      var index := 0;
      while index < |journal|
        invariant 0 <= index <= |journal|
        invariant Tracked() && old(trace) <= trace
        invariant forall i | |old(trace)| <= i < |trace| :: Without(old(items), trace[i], gone)
        invariant Without(old(items), items, gone)
        invariant forall j, i | 0 <= j < index && 0 <= i < journal[j].chunks && gone(journal[j].generation) ::
          ChunkKey(journal[j].generation, i) !in items
      {
        // The manifest names what is in use, whatever the save that wrote it reported.
        if active.None? || active.value.generation != journal[index].generation {
          assert gone(journal[index].generation) by { assert journal[index] in journal; }
          var cleaned := CleanChunks(journal[index]);
          if !cleaned {
            return false;
          }
        }
        index := index + 1;
      }
      ok := true;
    }

    method RecoverSteps() returns (ok: bool)
      requires Tracked()
      modifies this`items, this`trace
      ensures Tracked() && old(trace) <= trace
      ensures forall i | |old(trace)| <= i < |trace| :: RecoveryLeaves(codec, old(items), trace[i])
      ensures RecoveryLeaves(codec, old(items), items)
      ensures ok ==> CleanupKey !in items
      ensures healthy && Journal(codec, old(items)).Ok? && ChunkManifest(codec, old(items)).Ok? ==> ok
    {
      var entry := Fetch(CleanupKey);
      if entry.Err? || entry.value.None? {
        return entry.Ok?;
      }
      var journal := ParseJournal(codec, entry.value);
      if journal.Err? {
        return false;
      }
      var active := ReadChunkManifest();
      if active.Err? {
        return false;
      }
      ghost var gone := g => Stale(codec, old(items), g);
      assert forall m | m in journal.value :: gone(m.generation) <==> Active(codec, items) != Some(m.generation);
      var cleaned := CleanJournal(journal.value, active.value, gone);
      if !cleaned {
        return false;
      }
      ghost var trimmed := items;
      ok := Delete(CleanupKey);
      assert (trimmed - {CleanupKey})[CleanupKey := old(items)[CleanupKey]] == trimmed;
    }

    /**
     Finishes whatever an earlier save left behind. It changes no load, keeps the manifest and the single
     item, and when it reports success no journal is left.
     */
    method RecoverCleanup() returns (ok: bool)
      requires Valid()
      modifies this`items, this`trace
      ensures Valid() && old(trace) <= trace
      ensures Undisturbed(|old(trace)|, old(items))
      ensures LoadChunked(codec, items) == LoadChunked(codec, old(items))
      ensures Lookup(items, AccountKey) == Lookup(old(items), AccountKey)
      ensures Lookup(items, SingleKey) == Lookup(old(items), SingleKey)
      ensures items.Keys <= old(items).Keys
      ensures ok ==> CleanupKey !in items
      ensures healthy ==> ok
    {
      ok := RecoverSteps();
      forall i | |old(trace)| <= i < |trace|
        ensures Inv(codec, issued, singles, trace[i])
        ensures LoadChunked(codec, trace[i]) == LoadChunked(codec, old(items))
        ensures Lookup(trace[i], SingleKey) == Lookup(old(items), SingleKey)
      {
        RecoveryKeeps(codec, issued, singles, old(items), trace[i]);
      }
      RecoveryKeeps(codec, issued, singles, old(items), items);
      SingleUntouched(|old(trace)|, old(items));
    }

    /** States that all hold the same single item satisfy `SingleLeavesLast` pairwise. */
    lemma SingleUntouched(from: nat, base: Items)
      requires 0 < from <= |trace| && Lookup(trace[from - 1], SingleKey) == Lookup(base, SingleKey)
      requires forall i | from <= i < |trace| :: Lookup(trace[i], SingleKey) == Lookup(base, SingleKey)
      ensures forall i | from <= i < |trace| :: SingleLeavesLast(trace[i - 1], trace[i])
    {
    }

    /** Removes every chunked item, the manifest last, so a failure forgets no secret. */
    method RemoveChunked() returns (ok: bool)
      requires Valid()
      modifies this`items, this`trace
      ensures Valid() && old(trace) <= trace
      ensures forall i | |old(trace)| <= i < |trace| :: Lookup(trace[i], SingleKey) == Lookup(old(items), SingleKey)
      ensures Lookup(items, SingleKey) == Lookup(old(items), SingleKey)
      ensures items.Keys <= old(items).Keys
      ensures ok ==> forall k | k in items :: k == SingleKey
      ensures healthy ==> ok
    {
      var recovered := RecoverCleanup();
      if !recovered {
        return false;
      }
      var manifest := ReadChunkManifest();
      if manifest.Err? {
        return false;
      }
      if manifest.value.Some? {
        ok := RemoveActive(manifest.value.value);
      } else {
        OnlyActiveChunks();
        ok := true;
      }
    }

    /** Without a journal, every chunk belongs to the active manifest. */
    lemma OnlyActiveChunks()
      requires Valid() && CleanupKey !in items
      ensures forall k | k in items && k.ChunkKey? :: Active(codec, items) == Some(k.generation)
    {
      forall k | k in items && k.ChunkKey?
        ensures Active(codec, items) == Some(k.generation)
      {
        assert ChunkOwned(codec, items, k);
      }
    }

    method RemoveActive(active: Manifest) returns (ok: bool)
      requires Valid() && CleanupKey !in items && ChunkManifest(codec, items) == Ok(Some(active))
      modifies this`items, this`trace
      ensures Valid() && old(trace) <= trace
      ensures forall i | |old(trace)| <= i < |trace| :: Lookup(trace[i], SingleKey) == Lookup(old(items), SingleKey)
      ensures Lookup(items, SingleKey) == Lookup(old(items), SingleKey)
      ensures items.Keys <= old(items).Keys
      ensures ok ==> forall k | k in items :: k == SingleKey
      ensures healthy ==> ok
    {
      ok := RemoveActiveChunks(active);
      if ok {
        DeleteManifest(codec, issued, singles, items);
        ok := Delete(AccountKey);
      }
    }

    method RemoveActiveChunks(active: Manifest) returns (ok: bool)
      requires Valid() && CleanupKey !in items && ChunkManifest(codec, items) == Ok(Some(active))
      modifies this`items, this`trace
      ensures Valid() && old(trace) <= trace
      ensures forall i | |old(trace)| <= i < |trace| :: Lookup(trace[i], SingleKey) == Lookup(old(items), SingleKey)
      ensures Lookup(items, SingleKey) == Lookup(old(items), SingleKey)
      ensures items.Keys <= old(items).Keys
      ensures ok ==> forall k | k in items :: !k.ChunkKey?
      ensures healthy ==> ok
    {
      OnlyActiveChunks();
      ActiveChunks(codec, issued, singles, items, active);
      ok := CleanChunks(active);
      forall i | |old(trace)| <= i < |trace|
        ensures Inv(codec, issued, singles, trace[i])
      {
        TrimChunks(codec, issued, singles, old(items), trace[i], g => g == active.generation);
      }
      SingleUntouched(|old(trace)|, old(items));
      assert forall k | k in items && k.ChunkKey? :: k == ChunkKey(active.generation, k.index) && k.index < active.chunks;
    }

    /**
     Disconnects. Success leaves no key at all, and wherever it stops the single item is the last to go,
     so an older chunked login cannot resurface.
     */
    method Disconnect() returns (ok: bool)
      requires Valid()
      modifies this`items, this`trace
      ensures Valid() && old(trace) <= trace
      ensures items.Keys <= old(items).Keys
      ensures ok ==> items == map[]
      ensures SingleKey in items ==> items[SingleKey] == old(items)[SingleKey]
      ensures healthy ==> ok
    {
      ok := RemoveChunked();
      if ok {
        ghost var before := items;
        assert before - {SingleKey} == map[];
        ok := Delete(SingleKey);
      }
    }

    // ------------------------------------------------------------ saves

    /** Notes what the fresh generation is for. */
    ghost method Issue(generation: string, c: Credential)
      requires Valid() && codec.isUuid(generation) && generation !in issued
      requires Utf8Len(codec.writeCredential(c)) <= MAX_PAYLOAD_BYTES
      modifies this`issued
      ensures Valid() && issued == old(issued)[generation := c]
    {
      issued := issued[generation := c];
      forall i | 0 <= i < |trace|
        ensures Inv(codec, issued, singles, trace[i])
      {
        MoreIssued(codec, old(issued), issued, singles, singles, trace[i]);
      }
    }

    /** Persists the cleanup intent for the previous and the new generation. */
    method Announce(journal: seq<Manifest>) returns (ok: bool)
      requires Valid() && CleanupKey !in items && |journal| <= 2
      requires forall m | m in journal :: IssuedManifest(codec, issued, m) && WellFormedManifest(codec, m)
      modifies this`items, this`trace
      ensures Valid() && old(trace) <= trace
      ensures Undisturbed(|old(trace)|, old(items))
      ensures LoadChunked(codec, items) == LoadChunked(codec, old(items))
      ensures items == old(items) || items == old(items)[CleanupKey := codec.writeJournal(journal)]
      ensures ok ==> Journal(codec, items) == Ok(journal)
      ensures healthy ==> ok
    {
      PutJournal(codec, issued, singles, items, journal);
      ok := Put(CleanupKey, codec.writeJournal(journal));
      LoadFrame(codec, old(items), items);
    }

    /** Writes the chunks of a generation that no reader can see yet. */
    method WriteChunks(generation: string, parts: seq<string>) returns (ok: bool)
      requires Tracked()
      requires forall k | k in items && k.ChunkKey? :: k.generation != generation
      modifies this`items, this`trace
      ensures Tracked() && old(trace) <= trace
      ensures forall i | |old(trace)| <= i < |trace| :: WithStaged(old(items), trace[i], generation, parts)
      ensures WithStaged(old(items), items, generation, parts)
      ensures ok ==> forall i | 0 <= i < |parts| :: ChunkKey(generation, i) in items
      ensures healthy ==> ok
    {
      var index := 0;
      while index < |parts|
        invariant 0 <= index <= |parts|
        invariant Tracked() && old(trace) <= trace
        invariant forall i | |old(trace)| <= i < |trace| :: WithStaged(old(items), trace[i], generation, parts)
        invariant WithStaged(old(items), items, generation, parts)
        invariant forall i | 0 <= i < index :: ChunkKey(generation, i) in items
      {
        var written := Put(ChunkKey(generation, index), parts[index]);
        if !written {
          // What was written so far is journaled, so the next operation removes it.
          return false;
        }
        index := index + 1;
      }
      ok := true;
    }

    /** Stages a complete generation behind the unchanged manifest. */
    method Stage(generation: string, c: Credential) returns (ok: bool)
      requires Valid() && generation in issued && issued[generation] == c && Stale(codec, items, generation)
      requires forall k | k in items && k.ChunkKey? :: k.generation != generation
      modifies this`items, this`trace
      ensures Valid() && old(trace) <= trace
      ensures Undisturbed(|old(trace)|, old(items))
      ensures LoadChunked(codec, items) == LoadChunked(codec, old(items))
      ensures Lookup(items, AccountKey) == Lookup(old(items), AccountKey)
      ensures Lookup(items, CleanupKey) == Lookup(old(items), CleanupKey)
      ensures Lookup(items, SingleKey) == Lookup(old(items), SingleKey)
      ensures ok ==> AllChunksPresent(items, ManifestFor(codec, generation, c))
      ensures healthy ==> ok
    {
      ok := WriteChunks(generation, Parts(codec, c));
      forall i | |old(trace)| <= i < |trace|
        ensures Inv(codec, issued, singles, trace[i])
        ensures LoadChunked(codec, trace[i]) == LoadChunked(codec, old(items))
        ensures Lookup(trace[i], SingleKey) == Lookup(old(items), SingleKey)
      {
        StageChunks(codec, issued, singles, old(items), trace[i], generation);
      }
      StageChunks(codec, issued, singles, old(items), items, generation);
      SameLookups(old(items), items, generation, Parts(codec, c));
      SingleUntouched(|old(trace)|, old(items));
    }

    /** Switches the manifest: the one write that changes what loads return. */
    method Publish(m: Manifest, c: Credential) returns (ok: bool)
      requires Valid() && m == ManifestFor(codec, m.generation, c) && WellFormedManifest(codec, m)
      requires m.generation in issued && issued[m.generation] == c && AllChunksPresent(items, m)
      requires ChunkManifest(codec, items).value.Some? ==> ChunkManifest(codec, items).value.value in Journal(codec, items).value
      modifies this`items, this`trace
      ensures Valid() && trace == old(trace) + [items]
      ensures Lookup(items, SingleKey) == Lookup(old(items), SingleKey)
      ensures items == old(items) || LoadChunked(codec, items) == Complete(codec, m.generation, c)
      ensures ok ==> LoadChunked(codec, items) == Complete(codec, m.generation, c) && ChunkManifest(codec, items) == Ok(Some(m))
      ensures healthy ==> ok
    {
      ghost var after := items[AccountKey := codec.writeManifest(m)];
      PutManifest(codec, issued, singles, items, m);
      LoadOfInvariantState(codec, issued, singles, after);
      assert AllChunksPresent(after, m);
      ok := Put(AccountKey, codec.writeManifest(m));
    }

    /** From trace position `from`, loads return `before` up to some write and `after` from it on. */
    ghost predicate SwitchesOnce(from: nat, before: Loaded, after: Loaded)
      reads this
    {
      exists k | from <= k <= |trace| :: Loads(from, k, before) && Loads(k, |trace|, after)
    }

    /**
     Saves in the chunked layout under a fresh generation. Wherever it stops, a load returns exactly what
     it returned before or the complete new credential, switching at one write; success means the new one.
     */
    method SaveChunked(c: Credential, generation: string) returns (r: Result<Manifest>)
      requires Valid() && codec.isUuid(generation) && generation !in issued
      modifies this`items, this`trace, this`issued, this`singles
      ensures Valid() && old(trace) <= trace && singles == old(singles)
      ensures issued == old(issued) || issued == old(issued)[generation := c]
      ensures SwitchesOnce(|old(trace)|, LoadChunked(codec, old(items)), Complete(codec, generation, c))
      ensures LoadChunked(codec, items) in {LoadChunked(codec, old(items)), Complete(codec, generation, c)}
      ensures Lookup(items, SingleKey) == Lookup(old(items), SingleKey)
      ensures r.Ok? ==> r.value == ManifestFor(codec, generation, c)
                        && LoadChunked(codec, items) == Complete(codec, generation, c)
      ensures r.Ok? ==> CleanupKey !in items && forall k | k in items && k.ChunkKey? :: k.generation == generation
      ensures healthy ==> (r.Ok? <==> Utf8Len(codec.writeCredential(c)) <= 65536)
    {
      ghost var start, before, after := |trace|, LoadChunked(codec, items), Complete(codec, generation, c);
      var recovered := RecoverCleanup();
      assert Loads(start, |trace|, before);
      if !recovered {
        return Err;
      }
      var previous := ReadChunkManifest();
      if previous.Err? {
        return Err;
      }
      var payload := codec.writeCredential(c);
      if Utf8Len(payload) > MAX_PAYLOAD_BYTES {
        return Err;
      }
      var manifest := ManifestFor(codec, generation, c);
      FreshGeneration(generation);
      Issue(generation, c);
      FitsManifest(codec, generation, c);
      ghost var ready := |trace|;
      var finished := ReplaceGeneration(previous.value, manifest, c);
      ghost var switch :| ready <= switch <= |trace| && Loads(ready, switch, before) && Loads(switch, |trace|, after);
      assert Loads(start, switch, before);
      r := if finished then Ok(manifest) else Err;
    }

    /** Writes a complete new generation beside the previous one, switches to it and removes the old one. */
    method ReplaceGeneration(previous: Option<Manifest>, m: Manifest, c: Credential) returns (ok: bool)
      requires Valid() && CleanupKey !in items && ChunkManifest(codec, items) == Ok(previous)
      requires m == ManifestFor(codec, m.generation, c) && WellFormedManifest(codec, m)
      requires m.generation in issued && issued[m.generation] == c && Active(codec, items) != Some(m.generation)
      requires forall k | k in items && k.ChunkKey? :: k.generation != m.generation
      modifies this`items, this`trace
      ensures Valid() && old(trace) <= trace
      ensures SwitchesOnce(|old(trace)|, LoadChunked(codec, old(items)), Complete(codec, m.generation, c))
      ensures LoadChunked(codec, items) in {LoadChunked(codec, old(items)), Complete(codec, m.generation, c)}
      ensures Lookup(items, SingleKey) == Lookup(old(items), SingleKey)
      ensures ok ==> LoadChunked(codec, items) == Complete(codec, m.generation, c)
      ensures ok ==> CleanupKey !in items && forall k | k in items && k.ChunkKey? :: k.generation == m.generation
      ensures healthy ==> ok
    {
      ghost var start, before, after := |trace|, LoadChunked(codec, items), Complete(codec, m.generation, c);
      ok := StageGeneration(previous, m, c);
      assert Loads(start, |trace|, before);
      if !ok {
        assert Loads(|trace|, |trace|, after);
        return;
      }
      ghost var staged := |trace|;
      ok := PublishAndClean(m, c);
      ghost var switch :| staged <= switch <= |trace| && Loads(staged, switch, before) && Loads(switch, |trace|, after);
      assert Loads(start, switch, before);
    }

    /** Publishes a staged generation and removes the one it replaces. */
    method PublishAndClean(m: Manifest, c: Credential) returns (ok: bool)
      requires Valid() && m == ManifestFor(codec, m.generation, c) && WellFormedManifest(codec, m)
      requires m.generation in issued && issued[m.generation] == c && AllChunksPresent(items, m)
      requires ChunkManifest(codec, items).value.Some? ==> ChunkManifest(codec, items).value.value in Journal(codec, items).value
      modifies this`items, this`trace
      ensures Valid() && old(trace) <= trace
      ensures SwitchesOnce(|old(trace)|, LoadChunked(codec, old(items)), Complete(codec, m.generation, c))
      ensures LoadChunked(codec, items) in {LoadChunked(codec, old(items)), Complete(codec, m.generation, c)}
      ensures Lookup(items, SingleKey) == Lookup(old(items), SingleKey)
      ensures ok ==> LoadChunked(codec, items) == Complete(codec, m.generation, c)
      ensures ok ==> CleanupKey !in items && forall k | k in items && k.ChunkKey? :: k.generation == m.generation
      ensures healthy ==> ok
    {
      ghost var start, before, after := |trace|, LoadChunked(codec, items), Complete(codec, m.generation, c);
      ok := Publish(m, c);
      if !ok {
        assert if LoadChunked(codec, items) == after then Loads(start, start, before) && Loads(start, |trace|, after)
               else Loads(start, |trace|, before) && Loads(|trace|, |trace|, after);
        return;
      }
      ok := RecoverCleanup();
      assert Loads(start, start, before) && Loads(start, |trace|, after);
      if ok {
        OnlyActiveChunks();
      }
    }

    /** Journals the new generation beside the previous one, then writes its chunks. */
    method StageGeneration(previous: Option<Manifest>, manifest: Manifest, c: Credential) returns (ok: bool)
      requires Valid() && CleanupKey !in items && ChunkManifest(codec, items) == Ok(previous)
      requires manifest == ManifestFor(codec, manifest.generation, c)
      requires manifest.generation in issued && issued[manifest.generation] == c && WellFormedManifest(codec, manifest)
      requires Active(codec, items) != Some(manifest.generation)
      requires forall k | k in items && k.ChunkKey? :: k.generation != manifest.generation
      modifies this`items, this`trace
      ensures Valid() && old(trace) <= trace
      ensures Undisturbed(|old(trace)|, old(items))
      ensures LoadChunked(codec, items) == LoadChunked(codec, old(items))
      ensures Lookup(items, SingleKey) == Lookup(old(items), SingleKey)
      ensures ok ==> AllChunksPresent(items, manifest)
      ensures ok ==> ChunkManifest(codec, items) == Ok(previous)
      ensures ok && previous.Some? ==> Journal(codec, items).Ok? && previous.value in Journal(codec, items).value
      ensures healthy ==> ok
    {
      var journal := (if previous.Some? then [previous.value] else []) + [manifest];
      ok := Announce(journal);
      if !ok {
        return;
      }
      assert Stale(codec, items, manifest.generation) by {
        assert journal[|journal| - 1] == manifest;
      }
      ok := Stage(manifest.generation, c);
      assert previous.Some? ==> journal[0] == previous.value;
    }

    /** Nothing in the vault mentions a generation that was never issued. */
    lemma FreshGeneration(generation: string)
      requires Valid() && generation !in issued
      ensures forall k | k in items && k.ChunkKey? :: k.generation != generation
      ensures Active(codec, items) != Some(generation)
    {
      forall k | k in items && k.ChunkKey?
        ensures k.generation != generation
      {
        assert ChunkIntact(codec, issued, items, k);
      }
    }

    /** Notes what the fresh single-item generation is for. */
    ghost method IssueSingle(generation: string, c: Credential)
      requires Valid() && generation !in singles
      modifies this`singles
      ensures Valid() && singles == old(singles)[generation := c]
    {
      singles := singles[generation := c];
      forall i | 0 <= i < |trace|
        ensures Inv(codec, issued, singles, trace[i])
      {
        MoreIssued(codec, issued, issued, old(singles), singles, trace[i]);
      }
    }

    /**
     Saves in the single-item layout. One write decides: without effect the vault is as before, with
     effect every later state loads the new credential, whatever becomes of the old chunks.
     */
    method SaveSingle(c: Credential, generation: string) returns (r: Result<Manifest>)
      requires Valid() && codec.isUuid(generation) && generation !in singles
      modifies this`items, this`trace, this`issued, this`singles
      ensures Valid() && old(trace) <= trace && issued == old(issued)
      ensures singles == old(singles)[generation := c]
      ensures items == old(items) || LoadAny(codec, Single, items) == CompleteSingle(generation, c)
      ensures r.Ok? ==> r.value == Manifest(2, generation, 0) && LoadAny(codec, Single, items) == CompleteSingle(generation, c)
      ensures forall i | |old(trace)| <= i < |trace| ::
        trace[i] == old(items) || LoadAny(codec, Single, trace[i]) == CompleteSingle(generation, c)
      ensures healthy ==> (r.Ok? <==> Fits(codec, Single, generation, c))
      ensures !Fits(codec, Single, generation, c) ==> items == old(items)
      ensures healthy && r.Ok? ==> items.Keys == {SingleKey}
    {
      IssueSingle(generation, c);
      var payload := codec.writeStored(StoredCredential(2, generation, c));
      if Utf8Len(payload) > MAX_PAYLOAD_BYTES {
        return Err;
      }
      var written := WriteSingle(payload, generation, c);
      if !written {
        return Err;
      }
      CleanUnderSingle(generation, c);
      r := Ok(Manifest(2, generation, 0));
    }

    /** The deciding write of a single-item save. */
    method WriteSingle(payload: string, generation: string, c: Credential) returns (ok: bool)
      requires Valid() && codec.isUuid(generation) && generation in singles && singles[generation] == c
      requires payload == codec.writeStored(StoredCredential(2, generation, c)) && Utf8Len(payload) <= MAX_PAYLOAD_BYTES
      modifies this`items, this`trace
      ensures Valid() && trace == old(trace) + [items]
      ensures items == old(items) || LoadAny(codec, Single, items) == CompleteSingle(generation, c)
      ensures ok ==> items == old(items)[SingleKey := payload]
      ensures healthy ==> ok
    {
      PutSingle(codec, issued, singles, items, generation);
      SingleItemLoads(codec, generation, c, items[SingleKey := payload]);
      ok := Put(SingleKey, payload);
    }

    /** Removes the chunks under a stored single item, which every state along the way goes on loading. */
    method CleanUnderSingle(generation: string, c: Credential)
      requires Valid() && codec.isUuid(generation)
      requires Utf8Len(codec.writeStored(StoredCredential(2, generation, c))) <= MAX_PAYLOAD_BYTES
      requires Lookup(items, SingleKey) == Some(codec.writeStored(StoredCredential(2, generation, c)))
      modifies this`items, this`trace
      ensures Valid() && old(trace) <= trace
      ensures LoadAny(codec, Single, items) == CompleteSingle(generation, c)
      ensures forall i | |old(trace)| <= i < |trace| :: LoadAny(codec, Single, trace[i]) == CompleteSingle(generation, c)
      ensures healthy ==> items.Keys == {SingleKey}
    {
      var _ := RemoveChunked();
      SingleItemLoads(codec, generation, c, items);
      forall i | |old(trace)| <= i < |trace|
        ensures LoadAny(codec, Single, trace[i]) == CompleteSingle(generation, c)
      {
        SingleItemLoads(codec, generation, c, trace[i]);
      }
    }

    method Save(c: Credential, generation: string) returns (r: Result<Manifest>)
      requires Valid() && codec.isUuid(generation) && generation !in issued && generation !in singles
      modifies this`items, this`trace, this`issued, this`singles
      ensures Valid() && old(trace) <= trace
      ensures LoadAny(codec, layout, items) == LoadAny(codec, layout, old(items))
              || LoadAny(codec, layout, items) == Saved(codec, layout, generation, c)
      ensures r.Ok? ==> LoadAny(codec, layout, items) == Saved(codec, layout, generation, c)
      ensures r.Ok? ==> r.value.generation == generation
      ensures healthy ==> (r.Ok? <==> Fits(codec, layout, generation, c))
      ensures layout == Single && !Fits(codec, layout, generation, c) ==> items == old(items)
      ensures issued.Keys <= old(issued).Keys + {generation} && singles.Keys <= old(singles).Keys + {generation}
    {
      if layout == Single {
        r := SaveSingle(c, generation);
      } else {
        r := SaveChunked(c, generation);
      }
    }

    // ------------------------------------------------------------ whole runs

    /**
     Any number of chunked saves, each allowed to fail anywhere: in every state along the way a load returns
     the credential the run started with or one of those saved, complete, and never an error.
     */
    method SaveRepeatedly(saves: seq<(string, Credential)>) returns (last: Result<Manifest>)
      requires Valid() && LoadChunked(codec, items).Ok?
      requires forall i | 0 <= i < |saves| ::
        codec.isUuid(saves[i].0) && saves[i].0 !in issued && Validated(saves[i].1)
      requires forall i, j | 0 <= i < j < |saves| :: saves[i].0 != saves[j].0
      modifies this`items, this`trace, this`issued, this`singles
      ensures Valid() && old(trace) <= trace
      ensures forall i | |old(trace)| <= i < |trace| ::
        LoadedFrom(LoadChunked(codec, trace[i]), LoadChunked(codec, old(items)), saves)
      ensures last.Ok? ==> |saves| > 0
      ensures last.Ok? ==> LoadChunked(codec, items) == Complete(codec, saves[|saves| - 1].0, saves[|saves| - 1].1)
    {
      last := Err;
      var n := 0;
      while n < |saves|
        invariant 0 <= n <= |saves|
        invariant Valid() && old(trace) <= trace
        invariant forall g | g in issued :: g in old(issued) || exists j | 0 <= j < n :: saves[j].0 == g
        invariant forall i | |old(trace)| <= i < |trace| ::
          LoadedFrom(LoadChunked(codec, trace[i]), LoadChunked(codec, old(items)), saves)
        invariant LoadedFrom(LoadChunked(codec, items), LoadChunked(codec, old(items)), saves)
        invariant last.Ok? ==> n > 0 && LoadChunked(codec, items) == Complete(codec, saves[n - 1].0, saves[n - 1].1)
      {
        ghost var from, before := |trace|, LoadChunked(codec, items);
        ghost var after := Complete(codec, saves[n].0, saves[n].1);
        last := SaveChunked(saves[n].1, saves[n].0);
        ghost var switch :| from <= switch <= |trace| && Loads(from, switch, before) && Loads(switch, |trace|, after);
        assert LoadedFrom(after, LoadChunked(codec, old(items)), saves);
        n := n + 1;
      }
    }

    /** A credential without an account id is accepted by a save and refused by every load after it. */
    method SaveWithoutAccount(c: Credential, generation: string) returns (r: Result<Manifest>)
      requires Valid() && codec.isUuid(generation) && generation !in issued && generation !in singles
      requires healthy && c.accountId == "" && Fits(codec, layout, generation, c)
      modifies this`items, this`trace, this`issued, this`singles
      ensures Valid() && r.Ok? && LoadAny(codec, layout, items) == Err
    {
      r := Save(c, generation);
    }

    ghost predicate LoadedFrom(outcome: Loaded, initial: Loaded, saves: seq<(string, Credential)>) {
      && outcome.Ok?
      && (outcome == initial || exists j | 0 <= j < |saves| :: outcome == Complete(codec, saves[j].0, saves[j].1))
    }

    /** In every state ever reached, each stored chunk belongs to the manifest or to the journal. */
    lemma NoOrphanedChunks(i: nat, k: Key)
      requires Valid() && i < |trace| && k in trace[i] && k.ChunkKey?
      ensures ChunkOwned(codec, trace[i], k)
      ensures k.generation in issued && k.index < |Parts(codec, issued[k.generation])|
    {
      assert Inv(codec, issued, singles, trace[i]);
      assert ChunkIntact(codec, issued, trace[i], k) && ChunkOwned(codec, trace[i], k);
    }

    /**
     In every run, once a single item is stored, every load of the single-item layout returns a credential
     saved as a single item until the vault has been emptied completely.
     */
    lemma LegacyNeverResurfaces(i: nat, j: nat)
      requires Valid() && i <= j < |trace| && SingleKey in trace[i]
      requires forall n | i <= n <= j :: trace[n] != map[]
      ensures SingleKey in trace[j]
      ensures exists g | g in singles :: LoadAny(codec, Single, trace[j]) == CompleteSingle(g, singles[g])
      decreases j - i
    {
      if i < j {
        assert SingleLeavesLast(trace[i + 1 - 1], trace[i + 1]);
        LegacyNeverResurfaces(i + 1, j);
      } else {
        assert Inv(codec, issued, singles, trace[j]);
        LoadOfSingle(codec, singles, trace[j]);
      }
    }
  }
}
