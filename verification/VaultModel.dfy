/**
 The contents of the ChatGPT credential vault as a value: what a load reads from them, what every
 write of the protocol keeps true of them, and why a load never mixes two generations.

 Serialization is a parameter. `Lawful` states all that is assumed of it: reading back what was written
 gives the same value, and the empty text is no credential.
 */
module VaultModel {
  import opened Wrappers
  import opened VaultText

  /** One item of the service "anima.chatgpt.subscription.v1". */
  datatype Key =
    | AccountKey                                     // the chunk manifest
    | CleanupKey                                     // the cleanup journal
    | SingleKey                                      // the single-item credential
    | ChunkKey(generation: string, index: nat)

  type Items = map<Key, string>

  datatype Credential = Credential(
    accessToken: string, refreshToken: string, accountId: string, planType: Option<string>, expiresAtMs: nat)

  datatype Manifest = Manifest(version: nat, generation: string, chunks: nat)

  datatype StoredCredential = StoredCredential(version: nat, generation: string, credential: Credential)

  datatype Layout = Single | Chunked

  datatype Codec = Codec(
    isUuid: string -> bool,
    writeCredential: Credential -> string, readCredential: string -> Option<Credential>,
    writeManifest: Manifest -> string, readManifest: string -> Option<Manifest>,
    writeJournal: seq<Manifest> -> string, readJournal: string -> Option<seq<Manifest>>,
    writeStored: StoredCredential -> string, readStored: string -> Option<StoredCredential>)

  ghost predicate Lawful(codec: Codec) {
    && (forall c :: codec.readCredential(codec.writeCredential(c)) == Some(c))
    && (forall m :: codec.readManifest(codec.writeManifest(m)) == Some(m))
    && (forall j :: codec.readJournal(codec.writeJournal(j)) == Some(j))
    && (forall s :: codec.readStored(codec.writeStored(s)) == Some(s))
    && codec.readCredential("") == None
  }

  type Loaded = Result<Option<(Manifest, Credential)>>

  /** The fields a stored credential must have to be usable. */
  predicate Validated(c: Credential) {
    c.accessToken != "" && c.refreshToken != "" && c.accountId != ""
  }

  // ---------------------------------------------------------------- reading

  function Lookup(items: Items, key: Key): Option<string> {
    if key in items then Some(items[key]) else None
  }

  predicate WellFormedManifest(codec: Codec, m: Manifest) {
    m.version == 1 && m.chunks != 0 && m.chunks <= MAX_PIECES && codec.isUuid(m.generation)
  }

  function ParseManifest(codec: Codec, item: Option<string>): Result<Option<Manifest>> {
    match item
    case None => Ok(None)
    case Some(text) =>
      match codec.readManifest(text)
      case None => Err
      case Some(m) => if WellFormedManifest(codec, m) then Ok(Some(m)) else Err
  }

  function ChunkManifest(codec: Codec, items: Items): Result<Option<Manifest>> {
    ParseManifest(codec, Lookup(items, AccountKey))
  }

  function ParseJournal(codec: Codec, item: Option<string>): Result<seq<Manifest>> {
    match item
    case None => Ok([])
    case Some(text) =>
      match codec.readJournal(text)
      case None => Err
      case Some(journal) =>
        if |journal| > 2 || exists m | m in journal :: !WellFormedManifest(codec, m) then Err else Ok(journal)
  }

  function Journal(codec: Codec, items: Items): Result<seq<Manifest>> {
    ParseJournal(codec, Lookup(items, CleanupKey))
  }

  /** Concatenates chunk reads in order, failing at the first one that is absent or too long. */
  function Assemble(found: seq<Option<string>>, payload: string): Result<string>
    decreases |found|
  {
    if found == [] then Ok(payload)
    else if found[0].None? then Err
    else if Utf8Len(found[0].value) > MAX_PIECE_BYTES then Err
    else if Utf8Len(payload) + Utf8Len(found[0].value) > MAX_PAYLOAD_BYTES then Err
    else Assemble(found[1..], payload + found[0].value)
  }

  function Interpret(codec: Codec, m: Manifest, payload: Result<string>): Loaded {
    match payload
    case Err => Err
    case Ok(text) =>
      match codec.readCredential(text)
      case None => Err
      case Some(c) => if Validated(c) then Ok(Some((m, c))) else Err
  }

  function ChunkReads(items: Items, m: Manifest): seq<Option<string>> {
    seq(m.chunks, i requires 0 <= i < m.chunks => Lookup(items, ChunkKey(m.generation, i)))
  }

  function LoadChunked(codec: Codec, items: Items): Loaded {
    match ChunkManifest(codec, items)
    case Err => Err
    case Ok(None) => Ok(None)
    case Ok(Some(m)) => Interpret(codec, m, Assemble(ChunkReads(items, m), ""))
  }

  function ParseSingle(codec: Codec, item: Option<string>): Loaded {
    match item
    case None => Ok(None)
    case Some(text) =>
      if Utf8Len(text) > MAX_PAYLOAD_BYTES then Err
      else match codec.readStored(text)
        case None => Err
        case Some(s) =>
          if s.version != 2 || !codec.isUuid(s.generation) || !Validated(s.credential) then Err
          else Ok(Some((Manifest(2, s.generation, 0), s.credential)))
  }

  function LoadSingle(codec: Codec, items: Items): Loaded {
    ParseSingle(codec, Lookup(items, SingleKey))
  }

  function LoadAny(codec: Codec, layout: Layout, items: Items): Loaded {
    if layout == Single && LoadSingle(codec, items) != Ok(None) then LoadSingle(codec, items)
    else LoadChunked(codec, items)
  }

  /** Which generation a load would return: the single item's, or else the manifest's. */
  function CurrentManifest(codec: Codec, layout: Layout, items: Items): Result<Option<Manifest>> {
    if layout == Single && LoadSingle(codec, items) != Ok(None) then
      match LoadSingle(codec, items)
      case Err => Err
      case Ok(found) => Ok(Some(found.value.0))
    else ChunkManifest(codec, items)
  }

  predicate ManifestAccepted(codec: Codec, m: Manifest) {
    m.version == 1 && 1 <= m.chunks <= 132 && codec.isUuid(m.generation)
  }

  /** Which stored texts count as a manifest, a journal or a single-item credential. */
  lemma StoredItemsChecked(codec: Codec, items: Items, m: Manifest, journal: seq<Manifest>, c: Credential)
    ensures ChunkManifest(codec, items) == Ok(Some(m)) <==>
      AccountKey in items && codec.readManifest(items[AccountKey]) == Some(m) && ManifestAccepted(codec, m)
    ensures ChunkManifest(codec, items) == Ok(None) <==> AccountKey !in items
    ensures CleanupKey in items ==> (Journal(codec, items) == Ok(journal) <==>
      codec.readJournal(items[CleanupKey]) == Some(journal) && |journal| <= 2 && forall x | x in journal :: ManifestAccepted(codec, x))
    ensures CleanupKey !in items ==> Journal(codec, items) == Ok([])
    ensures LoadSingle(codec, items) == Ok(None) <==> SingleKey !in items
    ensures LoadSingle(codec, items) == Ok(Some((m, c))) <==>
      && SingleKey in items && Utf8Len(items[SingleKey]) <= 65536 && m == Manifest(2, m.generation, 0) && codec.isUuid(m.generation)
      && codec.readStored(items[SingleKey]) == Some(StoredCredential(2, m.generation, c))
      && c.accessToken != "" && c.refreshToken != "" && c.accountId != ""
  {
  }

  /** A chunked load succeeds only with every chunk there and small enough, and a usable credential in them. */
  lemma ChunkedLoadChecked(codec: Codec, items: Items)
    requires LoadChunked(codec, items).Ok? && LoadChunked(codec, items).value.Some?
    ensures var (m, c) := LoadChunked(codec, items).value.value;
      && ChunkManifest(codec, items) == Ok(Some(m))
      && (forall i | 0 <= i < m.chunks :: ChunkKey(m.generation, i) in items && Utf8Len(items[ChunkKey(m.generation, i)]) <= 2000)
      && (exists payload :: codec.readCredential(payload) == Some(c) && Utf8Len(payload) <= 65536)
      && c.accessToken != "" && c.refreshToken != "" && c.accountId != ""
  {
    var m := ChunkManifest(codec, items).value.value;
    var found := ChunkReads(items, m);
    AssembleChecked(found, "");
    forall i | 0 <= i < m.chunks
      ensures ChunkKey(m.generation, i) in items && Utf8Len(items[ChunkKey(m.generation, i)]) <= 2000
    {
      assert found[i].Some?;
    }
    assert codec.readCredential(Assemble(found, "").value).Some?;
  }

  lemma {:induction false} AssembleChecked(found: seq<Option<string>>, payload: string)
    requires Assemble(found, payload).Ok? && Utf8Len(payload) <= 65536
    ensures forall i | 0 <= i < |found| :: found[i].Some? && Utf8Len(found[i].value) <= 2000
    ensures Utf8Len(Assemble(found, payload).value) <= 65536
    decreases |found|
  {
    if found != [] {
      Utf8LenConcat(payload, found[0].value);
      AssembleChecked(found[1..], payload + found[0].value);
      forall i | 0 < i < |found|
        ensures found[i].Some? && Utf8Len(found[i].value) <= 2000
      {
        assert found[i] == found[1..][i - 1];
      }
    }
  }

  /** The generation that a load returns is the current one. */
  lemma CurrentOfLoad(codec: Codec, layout: Layout, items: Items)
    requires LoadAny(codec, layout, items).Ok? && LoadAny(codec, layout, items).value.Some?
    ensures CurrentManifest(codec, layout, items) == Ok(Some(LoadAny(codec, layout, items).value.value.0))
  {
  }

  // ---------------------------------------------------------------- what has been written

  /** The credential each chunked generation was created for; generations are never reused. */
  type Issued = map<string, Credential>

  function Parts(codec: Codec, c: Credential): seq<string> {
    Pieces(codec.writeCredential(c))
  }

  function ManifestFor(codec: Codec, generation: string, c: Credential): Manifest {
    Manifest(1, generation, |Parts(codec, c)|)
  }

  /** What a load of the complete generation returns. */
  function Complete(codec: Codec, generation: string, c: Credential): Loaded {
    if Validated(c) then Ok(Some((ManifestFor(codec, generation, c), c))) else Err
  }

  function CompleteSingle(generation: string, c: Credential): Loaded {
    if Validated(c) then Ok(Some((Manifest(2, generation, 0), c))) else Err
  }

  predicate IssuedManifest(codec: Codec, issued: Issued, m: Manifest) {
    m.generation in issued && m == ManifestFor(codec, m.generation, issued[m.generation])
  }

  ghost predicate WellIssued(codec: Codec, issued: Issued) {
    forall g | g in issued ::
      codec.isUuid(g) && Utf8Len(codec.writeCredential(issued[g])) <= MAX_PAYLOAD_BYTES
  }

  predicate ChunkIntact(codec: Codec, issued: Issued, items: Items, k: Key)
    requires k in items && k.ChunkKey?
  {
    && k.generation in issued
    && k.index < |Parts(codec, issued[k.generation])|
    && items[k] == Parts(codec, issued[k.generation])[k.index]
  }

  /** The chunk belongs to the active manifest or to a generation named in the cleanup journal. */
  predicate ChunkOwned(codec: Codec, items: Items, k: Key)
    requires k.ChunkKey?
  {
    || (ChunkManifest(codec, items).Ok? && ChunkManifest(codec, items).value.Some?
        && ChunkManifest(codec, items).value.value.generation == k.generation)
    || (Journal(codec, items).Ok? && exists m | m in Journal(codec, items).value :: m.generation == k.generation)
  }

  ghost predicate ChunksKept(codec: Codec, issued: Issued, items: Items) {
    forall k | k in items && k.ChunkKey? :: ChunkIntact(codec, issued, items, k) && ChunkOwned(codec, items, k)
  }

  ghost predicate ManifestKept(codec: Codec, issued: Issued, items: Items) {
    && ChunkManifest(codec, items).Ok?
    && (ChunkManifest(codec, items).value.Some? ==> IssuedManifest(codec, issued, ChunkManifest(codec, items).value.value))
  }

  ghost predicate JournalKept(codec: Codec, issued: Issued, items: Items) {
    && Journal(codec, items).Ok?
    && forall m | m in Journal(codec, items).value :: IssuedManifest(codec, issued, m)
  }

  ghost predicate SingleKept(codec: Codec, singles: Issued, items: Items) {
    SingleKey in items ==>
      exists g | g in singles ::
        && codec.isUuid(g)
        && items[SingleKey] == codec.writeStored(StoredCredential(2, g, singles[g]))
        && Utf8Len(items[SingleKey]) <= MAX_PAYLOAD_BYTES
  }

  /** True of the vault after every single write of the protocol, so also wherever the process dies. */
  ghost predicate Inv(codec: Codec, issued: Issued, singles: Issued, items: Items) {
    && ChunksKept(codec, issued, items)
    && ManifestKept(codec, issued, items)
    && JournalKept(codec, issued, items)
    && SingleKept(codec, singles, items)
  }

  // ---------------------------------------------------------------- loads

  /** Reads that each saw the right piece or nothing give the whole payload or an error. */
  lemma {:induction false} AssembleParts(parts: seq<string>, found: seq<Option<string>>, n: nat)
    requires |found| == |parts| && n <= |parts|
    requires forall i | 0 <= i < |parts| :: found[i].Some? ==> found[i].value == parts[i]
    requires forall i | 0 <= i < |parts| :: Utf8Len(parts[i]) <= MAX_PIECE_BYTES
    requires Utf8Len(Join(parts)) <= MAX_PAYLOAD_BYTES
    ensures Assemble(found[n..], Join(parts[..n])) ==
            if exists i | n <= i < |found| :: found[i].None? then Err else Ok(Join(parts))
    decreases |parts| - n
  {
    if n == |parts| {
      assert parts[..n] == parts;
    } else {
      AssembleParts(parts, found, n + 1);
      assert parts[..n + 1] == parts[..n] + [parts[n]];
      JoinAppend(parts[..n], parts[n]);
      JoinPrefixBytes(parts, n + 1);
      Utf8LenConcat(Join(parts[..n]), parts[n]);
      assert found[n..][1..] == found[n + 1..];
    }
  }

  /** A generation read piecewise yields the credential it was created for, or an error, and nothing else. */
  lemma InterpretGeneration(codec: Codec, g: string, c: Credential, found: seq<Option<string>>)
    requires Lawful(codec) && Utf8Len(codec.writeCredential(c)) <= MAX_PAYLOAD_BYTES
    requires |found| == |Parts(codec, c)|
    requires forall i | 0 <= i < |found| :: found[i].Some? ==> found[i].value == Parts(codec, c)[i]
    ensures Interpret(codec, ManifestFor(codec, g, c), Assemble(found, "")) ==
            if exists i | 0 <= i < |found| :: found[i].None? then Err else Complete(codec, g, c)
  {
    var text := codec.writeCredential(c);
    assert text != "" by {
      assert codec.readCredential(text) == Some(c);
    }
    PiecesFitTheVault(text);
    assert Parts(codec, c)[..0] == [];
    assert found[0..] == found;
    AssembleParts(Parts(codec, c), found, 0);
  }

  /** Whatever the size check admits gives a manifest that the manifest check admits. */
  lemma FitsManifest(codec: Codec, g: string, c: Credential)
    requires Lawful(codec) && codec.isUuid(g) && Utf8Len(codec.writeCredential(c)) <= MAX_PAYLOAD_BYTES
    ensures WellFormedManifest(codec, ManifestFor(codec, g, c))
  {
    assert codec.readCredential(codec.writeCredential(c)) == Some(c);
    PiecesFitTheVault(codec.writeCredential(c));
  }

  ghost predicate AllChunksPresent(items: Items, m: Manifest) {
    forall i | 0 <= i < m.chunks :: ChunkKey(m.generation, i) in items
  }

  /** In every state of the protocol a load returns the complete active credential unless a chunk is missing. */
  lemma LoadOfInvariantState(codec: Codec, issued: Issued, singles: Issued, items: Items)
    requires Lawful(codec) && WellIssued(codec, issued) && Inv(codec, issued, singles, items)
    ensures match ChunkManifest(codec, items).value
            case None => LoadChunked(codec, items) == Ok(None)
            case Some(m) =>
              LoadChunked(codec, items) ==
              if AllChunksPresent(items, m) then Complete(codec, m.generation, issued[m.generation]) else Err
  {
    match ChunkManifest(codec, items).value
    case None =>
    case Some(m) =>
      var found := ChunkReads(items, m);
      var c := issued[m.generation];
      forall i | 0 <= i < |found| && found[i].Some?
        ensures found[i].value == Parts(codec, c)[i]
      {
        assert ChunkIntact(codec, issued, items, ChunkKey(m.generation, i));
      }
      InterpretGeneration(codec, m.generation, c, found);
      assert AllChunksPresent(items, m) <==> !exists i | 0 <= i < |found| :: found[i].None? by {
        if !AllChunksPresent(items, m) {
          var i :| 0 <= i < m.chunks && ChunkKey(m.generation, i) !in items;
          assert found[i].None?;
        }
      }
  }

  /** A load depends only on the manifest and on the chunks of the generation it names. */
  lemma LoadFrame(codec: Codec, items: Items, items': Items)
    requires Lookup(items, AccountKey) == Lookup(items', AccountKey)
    requires ChunkManifest(codec, items).Ok? && ChunkManifest(codec, items).value.Some? ==>
      forall i: nat :: Lookup(items, ChunkKey(ChunkManifest(codec, items).value.value.generation, i)) ==
                       Lookup(items', ChunkKey(ChunkManifest(codec, items).value.value.generation, i))
    ensures LoadChunked(codec, items) == LoadChunked(codec, items')
  {
    match ChunkManifest(codec, items)
    case Ok(Some(m)) => assert ChunkReads(items, m) == ChunkReads(items', m);
    case _ =>
  }

  lemma LoadOfSingle(codec: Codec, singles: Issued, items: Items)
    requires Lawful(codec) && SingleKept(codec, singles, items) && SingleKey in items
    ensures exists g | g in singles ::
      && items[SingleKey] == codec.writeStored(StoredCredential(2, g, singles[g]))
      && LoadAny(codec, Single, items) == CompleteSingle(g, singles[g])
  {
    var g :| g in singles && codec.isUuid(g)
             && items[SingleKey] == codec.writeStored(StoredCredential(2, g, singles[g]));
    assert codec.readStored(items[SingleKey]) == Some(StoredCredential(2, g, singles[g]));
  }

  /** A stored single item decides every load of the single-item layout. */
  lemma SingleItemLoads(codec: Codec, g: string, c: Credential, items: Items)
    requires Lawful(codec) && codec.isUuid(g)
    requires Utf8Len(codec.writeStored(StoredCredential(2, g, c))) <= MAX_PAYLOAD_BYTES
    requires Lookup(items, SingleKey) == Some(codec.writeStored(StoredCredential(2, g, c)))
    ensures LoadAny(codec, Single, items) == CompleteSingle(g, c)
  {
    assert codec.readStored(items[SingleKey]) == Some(StoredCredential(2, g, c));
  }

  // ---------------------------------------------------------------- writes

  lemma MoreIssued(codec: Codec, issued: Issued, issued': Issued, singles: Issued, singles': Issued, items: Items)
    requires Inv(codec, issued, singles, items)
    requires issued.Keys <= issued'.Keys && forall g | g in issued :: issued'[g] == issued[g]
    requires singles.Keys <= singles'.Keys && forall g | g in singles :: singles'[g] == singles[g]
    ensures Inv(codec, issued', singles', items)
  {
    assert forall k | k in items && k.ChunkKey? ::
      ChunkIntact(codec, issued, items, k) ==> ChunkIntact(codec, issued', items, k);
  }

  /** `after` is `before` with some chunks of generation `g` written. */
  ghost predicate WithStaged(before: Items, after: Items, g: string, parts: seq<string>) {
    && (forall k | k in before :: k in after && after[k] == before[k])
    && (forall k | k in after && k !in before ::
          k.ChunkKey? && k.generation == g && k.index < |parts| && after[k] == parts[k.index])
  }

  /** Chunks of a journaled generation that is not active may be written; no load notices. */
  lemma StageChunks(codec: Codec, issued: Issued, singles: Issued, items: Items, items': Items, g: string)
    requires Inv(codec, issued, singles, items)
    requires g in issued && Stale(codec, items, g) && WithStaged(items, items', g, Parts(codec, issued[g]))
    ensures Inv(codec, issued, singles, items')
    ensures LoadChunked(codec, items') == LoadChunked(codec, items)
    ensures Lookup(items', SingleKey) == Lookup(items, SingleKey)
  {
    SameLookups(items, items', g, Parts(codec, issued[g]));
    KeepOwners(codec, items, items');
    LoadFrame(codec, items, items');
    forall k | k in items' && k.ChunkKey?
      ensures ChunkIntact(codec, issued, items', k) && ChunkOwned(codec, items', k)
    {
      if k in items {
        assert ChunkIntact(codec, issued, items, k) && ChunkOwned(codec, items, k);
      }
    }
  }

  lemma SameLookups(items: Items, items': Items, g: string, parts: seq<string>)
    requires WithStaged(items, items', g, parts)
    ensures Lookup(items, AccountKey) == Lookup(items', AccountKey)
    ensures Lookup(items, CleanupKey) == Lookup(items', CleanupKey)
    ensures Lookup(items, SingleKey) == Lookup(items', SingleKey)
    ensures forall k: Key | k.ChunkKey? && k.generation != g :: Lookup(items, k) == Lookup(items', k)
  {
  }

  /** `after` is `before` without some chunks, all of them of generations that satisfy `gone`. */
  ghost predicate Without(before: Items, after: Items, gone: string -> bool) {
    && after.Keys <= before.Keys
    && forall k | k in before :: (k in after && after[k] == before[k]) || (k !in after && k.ChunkKey? && gone(k.generation))
  }

  /** Any chunks may be deleted. */
  lemma TrimChunks(codec: Codec, issued: Issued, singles: Issued, items: Items, items': Items, gone: string -> bool)
    requires Inv(codec, issued, singles, items) && Without(items, items', gone)
    ensures Inv(codec, issued, singles, items')
  {
    KeepOwners(codec, items, items');
    forall k | k in items' && k.ChunkKey?
      ensures ChunkIntact(codec, issued, items', k) && ChunkOwned(codec, items', k)
    {
      assert ChunkIntact(codec, issued, items, k) && ChunkOwned(codec, items, k);
    }
  }

  lemma KeepOwners(codec: Codec, items: Items, items': Items)
    requires Lookup(items, AccountKey) == Lookup(items', AccountKey)
    requires Lookup(items, CleanupKey) == Lookup(items', CleanupKey)
    ensures ChunkManifest(codec, items) == ChunkManifest(codec, items')
    ensures Journal(codec, items) == Journal(codec, items')
    ensures forall k: Key | k.ChunkKey? :: ChunkOwned(codec, items, k) <==> ChunkOwned(codec, items', k)
  {
  }

  /** With no journal pending, a journal that names the active generation may be written. */
  lemma PutJournal(codec: Codec, issued: Issued, singles: Issued, items: Items, journal: seq<Manifest>)
    requires Lawful(codec) && WellIssued(codec, issued) && Inv(codec, issued, singles, items)
    requires CleanupKey !in items && |journal| <= 2
    requires forall m | m in journal :: IssuedManifest(codec, issued, m) && WellFormedManifest(codec, m)
    ensures Inv(codec, issued, singles, items[CleanupKey := codec.writeJournal(journal)])
    ensures Journal(codec, items[CleanupKey := codec.writeJournal(journal)]) == Ok(journal)
  {
    var items' := items[CleanupKey := codec.writeJournal(journal)];
    assert codec.readJournal(items'[CleanupKey]) == Some(journal);
    assert ChunkManifest(codec, items) == ChunkManifest(codec, items');
    forall k | k in items' && k.ChunkKey?
      ensures ChunkIntact(codec, issued, items', k) && ChunkOwned(codec, items', k)
    {
      assert ChunkIntact(codec, issued, items, k) && ChunkOwned(codec, items, k);
    }
  }

  /** The journal may go once every chunk left belongs to the active generation. */
  lemma DeleteJournal(codec: Codec, issued: Issued, singles: Issued, items: Items)
    requires Inv(codec, issued, singles, items)
    requires forall k | k in items && k.ChunkKey? :: Active(codec, items) == Some(k.generation)
    ensures Inv(codec, issued, singles, items - {CleanupKey})
  {
    var items' := items - {CleanupKey};
    assert ChunkManifest(codec, items) == ChunkManifest(codec, items');
    forall k | k in items' && k.ChunkKey?
      ensures ChunkIntact(codec, issued, items', k) && ChunkOwned(codec, items', k)
    {
      assert ChunkIntact(codec, issued, items, k);
    }
  }

  /** The manifest may switch between generations the journal names. */
  lemma PutManifest(codec: Codec, issued: Issued, singles: Issued, items: Items, m: Manifest)
    requires Lawful(codec) && WellIssued(codec, issued) && Inv(codec, issued, singles, items)
    requires IssuedManifest(codec, issued, m) && WellFormedManifest(codec, m)
    requires ChunkManifest(codec, items).value.Some? ==> ChunkManifest(codec, items).value.value in Journal(codec, items).value
    ensures Inv(codec, issued, singles, items[AccountKey := codec.writeManifest(m)])
    ensures ChunkManifest(codec, items[AccountKey := codec.writeManifest(m)]) == Ok(Some(m))
  {
    var items' := items[AccountKey := codec.writeManifest(m)];
    assert codec.readManifest(items'[AccountKey]) == Some(m);
    assert Journal(codec, items) == Journal(codec, items');
    forall k | k in items' && k.ChunkKey?
      ensures ChunkIntact(codec, issued, items', k) && ChunkOwned(codec, items', k)
    {
      assert ChunkIntact(codec, issued, items, k) && ChunkOwned(codec, items, k);
    }
  }

  /** The manifest may go once no chunk is left. */
  lemma DeleteManifest(codec: Codec, issued: Issued, singles: Issued, items: Items)
    requires Inv(codec, issued, singles, items)
    requires forall k | k in items :: !k.ChunkKey?
    ensures Inv(codec, issued, singles, items - {AccountKey})
  {
    assert Journal(codec, items) == Journal(codec, items - {AccountKey});
  }

  lemma PutSingle(codec: Codec, issued: Issued, singles: Issued, items: Items, g: string)
    requires Inv(codec, issued, singles, items)
    requires g in singles && codec.isUuid(g)
    requires Utf8Len(codec.writeStored(StoredCredential(2, g, singles[g]))) <= MAX_PAYLOAD_BYTES
    ensures Inv(codec, issued, singles, items[SingleKey := codec.writeStored(StoredCredential(2, g, singles[g]))])
  {
    var items' := items[SingleKey := codec.writeStored(StoredCredential(2, g, singles[g]))];
    KeepOwners(codec, items, items');
    assert forall k | k in items' && k.ChunkKey? ::
      ChunkIntact(codec, issued, items, k) ==> ChunkIntact(codec, issued, items', k);
  }

  // ---------------------------------------------------------------- recovery

  function Active(codec: Codec, items: Items): Option<string> {
    match ChunkManifest(codec, items)
    case Ok(Some(m)) => Some(m.generation)
    case _ => None
  }

  /** The generations a recovery may remove: journaled and not active. */
  predicate Stale(codec: Codec, items: Items, g: string) {
    && Journal(codec, items).Ok?
    && (exists m | m in Journal(codec, items).value :: m.generation == g)
    && Active(codec, items) != Some(g)
  }

  ghost predicate StaleCleaned(codec: Codec, before: Items, after: Items) {
    Journal(codec, before).Ok? &&
    forall m, i | m in Journal(codec, before).value && 0 <= i < m.chunks && Stale(codec, before, m.generation) ::
      ChunkKey(m.generation, i) !in after
  }

  /** What a recovery started in `before` may leave, wherever it stops. */
  ghost predicate RecoveryLeaves(codec: Codec, before: Items, after: Items) {
    || Without(before, after, g => Stale(codec, before, g))
    || (&& CleanupKey in before && CleanupKey !in after
        && Without(before, after[CleanupKey := before[CleanupKey]], g => Stale(codec, before, g))
        && StaleCleaned(codec, before, after))
  }

  /** A recovery keeps the invariant, the manifest, the single item and every load, wherever it stops. */
  lemma RecoveryKeeps(codec: Codec, issued: Issued, singles: Issued, before: Items, after: Items)
    requires Inv(codec, issued, singles, before) && RecoveryLeaves(codec, before, after)
    ensures Inv(codec, issued, singles, after)
    ensures LoadChunked(codec, after) == LoadChunked(codec, before)
    ensures Lookup(after, AccountKey) == Lookup(before, AccountKey)
    ensures Lookup(after, SingleKey) == Lookup(before, SingleKey)
    ensures after.Keys <= before.Keys
  {
    var gone := g => Stale(codec, before, g);
    LoadFrame(codec, before, after);
    if Without(before, after, gone) {
      TrimChunks(codec, issued, singles, before, after, gone);
    } else {
      var trimmed := after[CleanupKey := before[CleanupKey]];
      assert trimmed - {CleanupKey} == after;
      TrimChunks(codec, issued, singles, before, trimmed, gone);
      forall k | k in trimmed && k.ChunkKey?
        ensures Active(codec, trimmed) == Some(k.generation)
      {
        OwnedIsActive(codec, issued, singles, before, after, k);
      }
      DeleteJournal(codec, issued, singles, trimmed);
    }
  }

  /** Chunks of the active generation lie below its chunk count. */
  lemma ActiveChunks(codec: Codec, issued: Issued, singles: Issued, items: Items, active: Manifest)
    requires Inv(codec, issued, singles, items) && ChunkManifest(codec, items) == Ok(Some(active))
    ensures forall k | k in items && k.ChunkKey? && k.generation == active.generation :: k.index < active.chunks
  {
    assert forall k | k in items && k.ChunkKey? :: ChunkIntact(codec, issued, items, k);
  }

  /** A chunk that survives a finished recovery belongs to the active generation. */
  lemma OwnedIsActive(codec: Codec, issued: Issued, singles: Issued, before: Items, after: Items, k: Key)
    requires Inv(codec, issued, singles, before) && StaleCleaned(codec, before, after)
    requires k.ChunkKey? && k in before && k in after
    ensures Active(codec, before) == Some(k.generation)
  {
    assert ChunkIntact(codec, issued, before, k) && ChunkOwned(codec, before, k);
  }

  // ---------------------------------------------------------------- concurrent readers

  /**
   A reader that takes no lock reads the manifest from one state of the vault and each chunk from
   whichever state the vault is in by then. `at[0]` is when it read the manifest, `at[i + 1]` chunk i.
   */
  function ReadInterleaved(codec: Codec, history: seq<Items>, at: seq<nat>): Loaded
    requires |at| > 0 && forall i | 0 <= i < |at| :: at[i] < |history|
  {
    match ChunkManifest(codec, history[at[0]])
    case Err => Err
    case Ok(None) => Ok(None)
    case Ok(Some(m)) =>
      if |at| != m.chunks + 1 then Err
      else Interpret(codec, m, Assemble(
        seq(m.chunks, i requires 0 <= i < m.chunks => Lookup(history[at[i + 1]], ChunkKey(m.generation, i))), ""))
  }

  /**
   However saves and disconnects interleave with the reads, the reader gets the whole credential of the
   manifest it read, or an error; it never gets pieces of two generations.
   */
  lemma InterleavedReadsNeverMix(codec: Codec, issued: Issued, singles: Issued, history: seq<Items>, at: seq<nat>)
    requires Lawful(codec) && WellIssued(codec, issued)
    requires forall i | 0 <= i < |history| :: Inv(codec, issued, singles, history[i])
    requires |at| > 0 && forall i | 0 <= i < |at| :: at[i] < |history|
    ensures ChunkManifest(codec, history[at[0]]).Ok?
    ensures var manifest := ChunkManifest(codec, history[at[0]]).value;
      || (manifest.None? && ReadInterleaved(codec, history, at) == Ok(None))
      || (manifest.Some? && ReadInterleaved(codec, history, at) == Err
          && (|at| != manifest.value.chunks + 1
              || exists i | 0 <= i < manifest.value.chunks :: ChunkKey(manifest.value.generation, i) !in history[at[i + 1]]))
      || (manifest.Some? && manifest.value.generation in issued
          && ReadInterleaved(codec, history, at) == Complete(codec, manifest.value.generation, issued[manifest.value.generation]))
  {
    assert ManifestKept(codec, issued, history[at[0]]);
    match ChunkManifest(codec, history[at[0]]).value
    case None =>
    case Some(m) =>
      if |at| == m.chunks + 1 {
        var found := seq(m.chunks, i requires 0 <= i < m.chunks => Lookup(history[at[i + 1]], ChunkKey(m.generation, i)));
        var c := issued[m.generation];
        forall i | 0 <= i < |found| && found[i].Some?
          ensures found[i].value == Parts(codec, c)[i]
        {
          assert ChunksKept(codec, issued, history[at[i + 1]]);
          assert ChunkIntact(codec, issued, history[at[i + 1]], ChunkKey(m.generation, i));
        }
        InterpretGeneration(codec, m.generation, c, found);
      }
  }
}
