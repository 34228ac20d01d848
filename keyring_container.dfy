/**
 * Keys_container: the keyring's in-memory registry. Keys are held under
 * their signature; system key families are versioned, and a per-family
 * ledger records the newest version present. Every change is written
 * through the file layer in two phases (backup of the old keys, then the
 * keyring file with the new ones) and undone in memory when either phase
 * fails.
 */
module KeysContainer {
  import opened Wrappers
  import opened KeyringKey
  import opened KeyringIo

  const LoadErrorMessage: string := "Error while loading keyring content. The keyring might be malformed"
  const BackupFlushMessage: string := "Could not flush keys to keyring's backup"
  const StorageFlushMessage: string := "Could not flush keys to keyring"

  /** UINT_MAX: the newest version a system key family can reach. */
  const MaxVersion: nat := 0xFFFF_FFFF

  /** The key types the loader accepts. */
  const KnownKeyTypes: set<string> := {"AES", "RSA", "DSA"}

  /** is_key_valid: a key the loader accepts has an id and a known type. */
  predicate IsValidKey(k: Key)
  {
    k.id != "" && k.keyType in KnownKeyTypes
  }

  /** Every key is held under its own signature. */
  ghost predicate WellKeyed(keys: map<string, Key>)
  {
    forall sig :: sig in keys ==> Signature(keys[sig]) == sig
  }

  // ---------------------------------------------------------------------
  // Loading
  // ---------------------------------------------------------------------

  /**
   * load_keys_from_keyring_storage: the listing read from the keyring file,
   * key by key; an invalid key, or a second key with a signature already
   * loaded, rejects the whole listing.
   */
  function Loaded(ks: seq<Key>): (r: Option<map<string, Key>>)
    ensures r.Some? <==> DistinctSignatures(ks) && forall i :: 0 <= i < |ks| ==> IsValidKey(ks[i])
    ensures r.Some? ==> r.value == MapOf(ks)
  {
    if ks == [] then Some(map[])
    else
      var init := ks[..|ks| - 1];
      var k := ks[|ks| - 1];
      var prior := Loaded(init);
      DistinctSnoc(ks);
      if prior.None? || !IsValidKey(k) || Signature(k) in prior.value then None
      else Some(prior.value[Signature(k) := k])
  }

  /** A listing has distinct signatures when its prefix has and the last key's signature is new. */
  lemma DistinctSnoc(ks: seq<Key>)
    requires ks != []
    ensures var init := ks[..|ks| - 1];
      (forall i :: 0 <= i < |init| ==> init[i] == ks[i]) &&
      (DistinctSignatures(ks) <==>
        DistinctSignatures(init) && forall i :: 0 <= i < |init| ==> Signature(init[i]) != Signature(ks[|ks| - 1]))
  {
  }

  /** A key that is invalid, or whose signature was already loaded, rejects the whole listing. */
  lemma LoadRejects(ks: seq<Key>, i: nat, keys: map<string, Key>)
    requires i < |ks| && Loaded(ks[..i]) == Some(keys)
    requires !IsValidKey(ks[i]) || Signature(ks[i]) in keys
    ensures Loaded(ks).None?
  {
    if IsValidKey(ks[i]) {
      assert keys == MapOf(ks[..i]);
      var j :| 0 <= j < i && Signature(ks[..i][j]) == Signature(ks[i]);
      assert Signature(ks[j]) == Signature(ks[i]);
      assert !DistinctSignatures(ks);
    }
  }

  /** A valid key with a new signature joins the keys loaded so far. */
  lemma LoadAccepts(ks: seq<Key>, i: nat, keys: map<string, Key>)
    requires i < |ks| && Loaded(ks[..i]) == Some(keys)
    requires IsValidKey(ks[i]) && Signature(ks[i]) !in keys
    ensures Loaded(ks[..i + 1]) == Some(keys[Signature(ks[i]) := ks[i]])
  {
    assert ks[..i + 1][..i] == ks[..i];
  }

  // ---------------------------------------------------------------------
  // The version ledger
  // ---------------------------------------------------------------------

  /** The ledger entry of a family: its newest version and that version's id. */
  datatype Latest = Latest(version: nat, id: string)

  /** The version of a key within family `base`, if it is a versioned system key of that family. */
  function VersionIn(k: Key, base: string): (r: Option<nat>)
    ensures r.Some? ==> k.owner == "" && SplitVersion(k.id) == Some((base, r.value))
  {
    if k.owner == "" && SplitVersion(k.id).Some? && SplitVersion(k.id).value.0 == base
    then Some(SplitVersion(k.id).value.1) else None
  }

  /**
   * The ledger describes the keys: each recorded family names a stored
   * key of that family at the recorded version, and no stored key of the
   * family is newer; every versioned system key's family is recorded.
   */
  ghost predicate LedgerValid(keys: map<string, Key>, ledger: map<string, Latest>)
  {
    EntriesValid(keys, ledger) && NewestValid(keys, ledger)
  }

  /** Each recorded family names a stored key of that family at the recorded version. */
  ghost predicate EntriesValid(keys: map<string, Key>, ledger: map<string, Latest>)
  {
    forall base :: base in ledger ==>
      IsSystemBase(base) && ledger[base].id in keys &&
      VersionIn(keys[ledger[base].id], base) == Some(ledger[base].version)
  }

  /** No stored versioned system key is newer than its family's entry, and every such family has one. */
  ghost predicate NewestValid(keys: map<string, Key>, ledger: map<string, Latest>)
  {
    forall sig, base :: sig in keys && VersionIn(keys[sig], base).Some? ==>
      base in ledger && VersionIn(keys[sig], base).value <= ledger[base].version
  }

  /** record_versioned: a versioned system key raises its family's entry when it is newer. */
  function Recorded(ledger: map<string, Latest>, k: Key): (r: map<string, Latest>)
    ensures r.Keys == ledger.Keys + (if k.owner == "" && SplitVersion(k.id).Some? then {SplitVersion(k.id).value.0} else {})
  {
    if k.owner == "" && SplitVersion(k.id).Some? then
      var base := SplitVersion(k.id).value.0;
      var v := SplitVersion(k.id).value.1;
      if base in ledger && ledger[base].version >= v then ledger else ledger[base := Latest(v, k.id)]
    else ledger
  }

  /** The empty container: no keys, no ledger entries. */
  lemma EmptyIsValid()
    ensures WellKeyed(map[]) && LedgerValid(map[], map[])
  {
  }

  /** Adding a key with a new signature and recording it keeps the ledger describing the keys. */
  lemma RecordKeepsLedger(keys: map<string, Key>, ledger: map<string, Latest>, k: Key)
    requires WellKeyed(keys) && LedgerValid(keys, ledger) && Signature(k) !in keys
    ensures WellKeyed(keys[Signature(k) := k])
    ensures LedgerValid(keys[Signature(k) := k], Recorded(ledger, k))
  {
    RecordKeepsEntries(keys, ledger, k);
    RecordKeepsNewest(keys, ledger, k);
  }

  lemma RecordKeepsEntries(keys: map<string, Key>, ledger: map<string, Latest>, k: Key)
    requires EntriesValid(keys, ledger) && Signature(k) !in keys
    ensures EntriesValid(keys[Signature(k) := k], Recorded(ledger, k))
  {
    var keys' := keys[Signature(k) := k];
    NewKeyKeepsEntries(keys, ledger, k);
    if k.owner == "" && SplitVersion(k.id).Some? {
      var base, v := SplitVersion(k.id).value.0, SplitVersion(k.id).value.1;
      if base in ledger && ledger[base].version >= v {
        assert Recorded(ledger, k) == ledger;
      } else {
        assert Recorded(ledger, k) == ledger[base := Latest(v, k.id)];
        assert Signature(k) == k.id;
        RaisedEntryKeepsEntries(keys', ledger, base, Latest(v, k.id));
      }
    } else {
      assert Recorded(ledger, k) == ledger;
    }
  }

  /** A key with a new signature leaves every ledger entry pointing where it did. */
  lemma NewKeyKeepsEntries(keys: map<string, Key>, ledger: map<string, Latest>, k: Key)
    requires EntriesValid(keys, ledger) && Signature(k) !in keys
    ensures EntriesValid(keys[Signature(k) := k], ledger)
  {
    var keys' := keys[Signature(k) := k];
    forall base | base in ledger
      ensures IsSystemBase(base) && ledger[base].id in keys'
      ensures VersionIn(keys'[ledger[base].id], base) == Some(ledger[base].version)
    {
      assert keys'[ledger[base].id] == keys[ledger[base].id];
    }
  }

  /** An entry naming a stored key of its family at its version may replace a family's entry. */
  lemma RaisedEntryKeepsEntries(keys: map<string, Key>, ledger: map<string, Latest>, base: string, e: Latest)
    requires EntriesValid(keys, ledger)
    requires IsSystemBase(base) && e.id in keys && VersionIn(keys[e.id], base) == Some(e.version)
    ensures EntriesValid(keys, ledger[base := e])
  {
  }

  lemma RecordKeepsNewest(keys: map<string, Key>, ledger: map<string, Latest>, k: Key)
    requires NewestValid(keys, ledger)
    ensures NewestValid(keys[Signature(k) := k], Recorded(ledger, k))
  {
    var keys' := keys[Signature(k) := k];
    var ledger' := Recorded(ledger, k);
    forall sig, base | sig in keys' && VersionIn(keys'[sig], base).Some?
      ensures base in ledger' && VersionIn(keys'[sig], base).value <= ledger'[base].version
    {
      if sig != Signature(k) {
        assert keys'[sig] == keys[sig];
      }
    }
  }

  /** Removing a key that is not a system key keeps the ledger describing the keys. */
  lemma RemoveKeepsLedger(keys: map<string, Key>, ledger: map<string, Latest>, sig: string)
    requires WellKeyed(keys) && LedgerValid(keys, ledger)
    requires sig in keys && !IsSystemKey(keys[sig].id, keys[sig].owner)
    ensures WellKeyed(keys - {sig}) && LedgerValid(keys - {sig}, ledger)
  {
    RemoveKeepsEntries(keys, ledger, sig);
    RemoveKeepsNewest(keys, ledger, sig);
  }

  lemma RemoveKeepsEntries(keys: map<string, Key>, ledger: map<string, Latest>, sig: string)
    requires EntriesValid(keys, ledger)
    requires sig in keys && !IsSystemKey(keys[sig].id, keys[sig].owner)
    ensures EntriesValid(keys - {sig}, ledger)
  {
    var keys' := keys - {sig};
    forall base | base in ledger
      ensures IsSystemBase(base) && ledger[base].id in keys'
      ensures VersionIn(keys'[ledger[base].id], base) == Some(ledger[base].version)
    {
      var k := keys[ledger[base].id];
      assert VersionIn(k, base).Some?;
      assert IsSystemKey(k.id, k.owner);
      assert ledger[base].id != sig;
      assert keys'[ledger[base].id] == k;
    }
  }

  lemma RemoveKeepsNewest(keys: map<string, Key>, ledger: map<string, Latest>, sig: string)
    requires NewestValid(keys, ledger)
    ensures NewestValid(keys - {sig}, ledger)
  {
    var keys' := keys - {sig};
    forall s, base | s in keys' && VersionIn(keys'[s], base).Some?
      ensures base in ledger && VersionIn(keys'[s], base).value <= ledger[base].version
    {
      assert keys'[s] == keys[s];
    }
  }

  /**
   * rotate_id_if_unversioned: a system key stored under its bare family name
   * gets the id of the family's next version; it fails once the family has
   * reached the last version. Any other key keeps its id.
   */
  function Rotated(ledger: map<string, Latest>, k: Key): (r: Option<Key>)
    ensures !(k.owner == "" && IsSystemBase(k.id)) ==> r == Some(k)
    ensures r.Some? ==> r.value.keyType == k.keyType && r.value.owner == k.owner && r.value.data == k.data
    ensures k.owner == "" && IsSystemBase(k.id) ==> (r.None? <==> k.id in ledger && ledger[k.id].version >= MaxVersion)
  {
    if k.owner == "" && IsSystemBase(k.id) then
      var current := if k.id in ledger then ledger[k.id].version else 0;
      if current >= MaxVersion then None
      else Some(k.(id := VersionedId(k.id, current + 1)))
    else Some(k)
  }

  /**
   * A bare-name store names the next version of the family: one past the
   * newest stored version, or 1 when the family has none, and newer than
   * every stored key of the family.
   */
  lemma RotationNamesNextVersion(keys: map<string, Key>, ledger: map<string, Latest>, k: Key)
    requires LedgerValid(keys, ledger)
    requires k.owner == "" && IsSystemBase(k.id) && Rotated(ledger, k).Some?
    ensures var next := if k.id in ledger then ledger[k.id].version + 1 else 1;
      VersionIn(Rotated(ledger, k).value, k.id) == Some(next) &&
      forall sig :: sig in keys && VersionIn(keys[sig], k.id).Some? ==> VersionIn(keys[sig], k.id).value < next
  {
    var next := if k.id in ledger then ledger[k.id].version + 1 else 1;
    SplitVersionedId(k.id, next);
    assert Rotated(ledger, k).value == k.(id := VersionedId(k.id, next));
    forall sig | sig in keys && VersionIn(keys[sig], k.id).Some?
      ensures VersionIn(keys[sig], k.id).value < next
    {
      assert k.id in ledger && VersionIn(keys[sig], k.id).value <= ledger[k.id].version;
    }
  }

  /** The stored key of family `base` with the newest version `v`. */
  ghost predicate IsLatest(keys: map<string, Key>, base: string, sig: string, v: nat)
  {
    sig in keys && VersionIn(keys[sig], base) == Some(v) &&
    forall s :: s in keys && VersionIn(keys[s], base).Some? ==> VersionIn(keys[s], base).value <= v
  }

  /**
   * The data a bare-name fetch hands out: the version tag and the stored
   * data, inside the obfuscation. It is longer than the stored data by the
   * length of the tag.
   */
  function Tagged(v: nat, stored: Bytes): (r: Bytes)
    ensures |r| == |VersionPrefix(v)| + |stored|
  {
    Obfuscate(VersionPrefix(v) + Obfuscate(stored))
  }

  /**
   * The caller's view of a fetched system key: a key stored as the
   * obfuscated `plain` comes back, once obfuscated again, as "<version>:"
   * followed by `plain`.
   */
  lemma TaggedRevealsVersion(v: nat, plain: Bytes)
    ensures Obfuscate(Tagged(v, Obfuscate(plain))) == VersionPrefix(v) + plain
  {
    ObfuscateIsInvolution(plain);
    ObfuscateIsInvolution(VersionPrefix(v) + plain);
  }

  /** Whether a fetch template names a family rather than one key: no owner and a bare base name. */
  predicate IsBareSystemName(t: Key)
  {
    t.owner == "" && IsSystemBase(t.id)
  }

  // ---------------------------------------------------------------------
  // The two-phase flush
  // ---------------------------------------------------------------------

  /** Where a flush of the keys `pre` (before the change) and `post` (after it) stops. */
  datatype FlushStage = Committed | BackupNotSerialized | FileChanged | StorageNotSerialized

  /**
   * The old keys are serialized and written to the backup, which the file
   * layer refuses when the keyring file changed behind its back; then the
   * new keys are serialized and written to the keyring file.
   */
  function Stage(c: Codec, pre: map<string, Key>, post: map<string, Key>, main: Option<Bytes>, digest: Option<Bytes>): FlushStage
  {
    if c.encode(pre).None? then BackupNotSerialized
    else if main != digest then FileChanged
    else if c.encode(post).None? then StorageNotSerialized
    else Committed
  }

  /** What a flush that stops at `s` logs. */
  function FlushLog(s: FlushStage, main: Option<Bytes>): seq<LogEntry>
  {
    match s
    case Committed => []
    case BackupNotSerialized => [LogEntry(Error, BackupFlushMessage)]
    case FileChanged =>
      (if main.Some? then [LogEntry(Error, ChangedOutsideMessage)] else []) + [LogEntry(Error, BackupFlushMessage)]
    case StorageNotSerialized => [LogEntry(Error, StorageFlushMessage)]
  }

  /** Every key is one the loader accepts. */
  ghost predicate AllValid(m: map<string, Key>)
  {
    forall sig :: sig in m ==> IsValidKey(m[sig])
  }

  /** A listing of the keys of a well-keyed map loads back as that map when every key is valid. */
  lemma ListingLoads(ks: seq<Key>, m: map<string, Key>)
    requires DistinctSignatures(ks) && MapOf(ks) == m && AllValid(m)
    ensures Loaded(ks) == Some(m)
  {
    MapOfHoldsEachKey(ks);
    forall i | 0 <= i < |ks|
      ensures IsValidKey(ks[i])
    {
      assert m[Signature(ks[i])] == ks[i];
    }
  }

  /**
   * Durability: after a committed flush without a backup left behind, a
   * restart loads exactly the keys written.
   */
  lemma RestartFindsCommittedKeys(c: Codec, post: map<string, Key>)
    requires RoundTrips(c) && c.encode(post).Some? && AllValid(post)
    ensures Recovered(c, Some(Envelope(c.encode(post).value)), None).Ok?
    ensures Loaded(Recovered(c, Some(Envelope(c.encode(post).value)), None).value) == Some(post)
  {
    WrittenFileParses(c, post);
    ListingLoads(ParseFile(c, Envelope(c.encode(post).value)).value, post);
  }

  /**
   * Crash safety: once the backup holds the old keys, a restart loads the
   * old keys whatever the keyring file holds, so a change is either whole
   * or absent.
   */
  lemma RestartFromBackupFindsOldKeys(c: Codec, pre: map<string, Key>, main: Option<Bytes>)
    requires RoundTrips(c) && c.encode(pre).Some? && AllValid(pre)
    ensures Recovered(c, main, Some(Envelope(c.encode(pre).value))).Ok?
    ensures Loaded(Recovered(c, main, Some(Envelope(c.encode(pre).value))).value) == Some(pre)
    ensures RecoveredMain(main, Some(Envelope(c.encode(pre).value)), c) == Some(Envelope(c.encode(pre).value))
  {
    WrittenFileParses(c, pre);
    ListingLoads(ParseFile(c, Envelope(c.encode(pre).value)).value, pre);
  }

  // ---------------------------------------------------------------------
  // The container
  // ---------------------------------------------------------------------

  class Keyring {
    /** keys_hash: every key under its signature. */
    var keys: map<string, Key>
    /** The system keys container: per family, the newest version stored. */
    var ledger: map<string, Latest>
    /** What the container and its file layer have logged. */
    var log: seq<LogEntry>
    /** The keyring_io handed to init. */
    const io: BufferedFileIo

    ghost predicate Valid()
      reads this
    {
      WellKeyed(keys) && LedgerValid(keys, ledger)
    }

    constructor (io: BufferedFileIo)
      ensures Valid()
      ensures keys == map[] && ledger == map[] && log == [] && this.io == io
    {
      keys := map[];
      ledger := map[];
      log := [];
      this.io := io;
    }

    /** get_number_of_keys. */
    function NumberOfKeys(): (n: nat)
      reads this
      ensures n == |keys.Keys|
    {
      |keys|
    }

    /**
     * fetch_key: a bare family name gives the family's newest version under
     * the bare name, its data tagged with "<version>:" inside the
     * obfuscation; any other template is looked up by its signature.
     */
    function FetchKey(t: Key): (r: Option<Key>)
      reads this
      requires Valid()
      ensures IsBareSystemName(t) && r.Some? ==> Signature(r.value) == t.id && r.value.owner == ""
      ensures !IsBareSystemName(t) ==> (r.Some? <==> Signature(t) in keys)
      ensures !IsBareSystemName(t) && r.Some? ==> r.value == keys[Signature(t)]
    {
      if IsBareSystemName(t) then
        if t.id in ledger then
          var latest := ledger[t.id];
          var stored := keys[latest.id];
          Some(Key(t.id, stored.keyType, "", Tagged(latest.version, stored.data)))
        else None
      else if Signature(t) in keys then Some(keys[Signature(t)])
      else None
    }

    /**
     * A bare family name fetches the family's newest stored version, under
     * the bare name, with the data "<version>:" followed by the stored data
     * inside the obfuscation; it fetches nothing when the family has no
     * stored version.
     */
    lemma FetchGivesNewestVersion(t: Key)
      requires Valid() && IsBareSystemName(t)
      ensures FetchKey(t).Some? <==> exists sig :: sig in keys && VersionIn(keys[sig], t.id).Some?
      ensures FetchKey(t).Some? ==>
        exists sig, v :: IsLatest(keys, t.id, sig, v) &&
          FetchKey(t).value == Key(t.id, keys[sig].keyType, "", Tagged(v, keys[sig].data))
    {
      if t.id in ledger {
        assert IsLatest(keys, t.id, ledger[t.id].id, ledger[t.id].version);
      }
    }

    /**
     * init: loads the keys the file layer hands back. A file the layer
     * cannot read, or a listing with an invalid or repeated key, leaves the
     * container empty and fails with the malformed-keyring message.
     */
    method Init() returns (failed: bool)
      requires Valid()
      modifies this, io
      ensures Valid()
      ensures var source := Recovered(io.codec, old(io.main), old(io.backup));
        (failed <==> source.Err? || Loaded(source.value).None?) &&
        (!failed ==> keys == Loaded(source.value).value)
      ensures failed ==> keys == map[] && ledger == map[] && |log| > 0 && log[|log| - 1] == LogEntry(Error, LoadErrorMessage)
      ensures io.main == RecoveredMain(old(io.main), old(io.backup), io.codec) && io.backup == None
      ensures RoundTrips(io.codec) && old(io.main) == Some(Envelope([])) && old(io.backup) == None ==>
        !failed && keys == map[]
    {
      if RoundTrips(io.codec) && io.main == Some(Envelope([])) && io.backup == None {
        EmptyFileLoads(io.codec);
      }
      keys := map[];
      ledger := map[];
      var loaded, entries := io.Load();
      log := log + entries;
      if loaded.Err? {
        log := log + [LogEntry(Error, LoadErrorMessage)];
        return true;
      }
      failed := LoadListing(loaded.value);
    }

    /**
     * load_keys_from_keyring_storage: adds the keys of the listing one by
     * one, recording each versioned system key in the ledger; the first
     * invalid or repeated key empties the container and fails.
     */
    method LoadListing(ks: seq<Key>) returns (failed: bool)
      requires keys == map[] && ledger == map[]
      modifies this
      ensures Valid()
      ensures failed <==> Loaded(ks).None?
      ensures !failed ==> keys == Loaded(ks).value && log == old(log)
      ensures failed ==> keys == map[] && ledger == map[] && log == old(log) + [LogEntry(Error, LoadErrorMessage)]
    {
      EmptyIsValid();
      var i := 0;
      while i < |ks|
        invariant 0 <= i <= |ks|
        invariant Loaded(ks[..i]) == Some(keys)
        invariant Valid() && log == old(log)
      {
        var k := ks[i];
        if !IsValidKey(k) || Signature(k) in keys {
          LoadRejects(ks, i, keys);
          EmptyIsValid();
          keys := map[];
          ledger := map[];
          log := log + [LogEntry(Error, LoadErrorMessage)];
          return true;
        }
        LoadAccepts(ks, i, keys);
        RecordKeepsLedger(keys, ledger, k);
        keys := keys[Signature(k) := k];
        ledger := Recorded(ledger, k);
        i := i + 1;
      }
      assert ks[..i] == ks;
      return false;
    }

    /**
     * flush_to_backup then flush_to_storage: the old keys to the backup, the
     * new keys to the keyring file, with the message of the stage that
     * fails. The keys in memory are the caller's to roll back.
     */
    method Flush(pre: map<string, Key>, post: map<string, Key>) returns (ok: bool)
      modifies this, io
      ensures keys == old(keys) && ledger == old(ledger)
      ensures var stage := Stage(io.codec, pre, post, old(io.main), old(io.digest));
        (ok <==> stage == Committed) && log == old(log) + FlushLog(stage, old(io.main))
      ensures ok ==> io.main == Some(Envelope(io.codec.encode(post).value)) && io.digest == io.main
      ensures ok ==> io.backup == if io.retainBackup then Some(Envelope(io.codec.encode(pre).value)) else None
      ensures !ok ==> io.main == old(io.main) && io.digest == old(io.digest)
      ensures Stage(io.codec, pre, post, old(io.main), old(io.digest)) == BackupNotSerialized ==> io.backup == old(io.backup)
      ensures Stage(io.codec, pre, post, old(io.main), old(io.digest)) == FileChanged ==> io.backup == None
      ensures Stage(io.codec, pre, post, old(io.main), old(io.digest)) == StorageNotSerialized ==>
        io.backup == Some(Envelope(io.codec.encode(pre).value))
    {
      var backupStream := io.codec.encode(pre);
      if backupStream.None? {
        log := log + [LogEntry(Error, BackupFlushMessage)];
        return false;
      }
      var backedUp, entries := io.FlushToBackup(backupStream.value);
      log := log + entries;
      if !backedUp {
        log := log + [LogEntry(Error, BackupFlushMessage)];
        return false;
      }
      var storageStream := io.codec.encode(post);
      if storageStream.None? {
        log := log + [LogEntry(Error, StorageFlushMessage)];
        return false;
      }
      io.FlushToStorage(storageStream.value);
      return true;
    }

    /**
     * store_key: a bare family name is first rotated to the family's next
     * version; a key whose signature is present is refused before any file
     * is touched; otherwise the key is inserted and flushed, and removed
     * again when the flush fails. A committed versioned system key raises
     * its family's ledger entry.
     */
    method StoreKey(k: Key) returns (failed: bool)
      requires Valid()
      modifies this, io
      ensures Valid()
      ensures var key := Rotated(old(ledger), k);
        var refused := key.None? || Signature(key.value) in old(keys);
        (refused ==> failed && log == old(log) && io.main == old(io.main) && io.backup == old(io.backup)) &&
        (!refused ==>
          var stage := Stage(io.codec, old(keys), old(keys)[Signature(key.value) := key.value], old(io.main), old(io.digest));
          (failed <==> stage != Committed) && log == old(log) + FlushLog(stage, old(io.main)))
      ensures failed ==> keys == old(keys) && ledger == old(ledger) && io.main == old(io.main) && io.digest == old(io.digest)
      ensures !failed ==> var key := Rotated(old(ledger), k).value;
        Signature(key) !in old(keys) && keys == old(keys)[Signature(key) := key] &&
        ledger == Recorded(old(ledger), key) &&
        io.main == Some(Envelope(io.codec.encode(keys).value)) && io.digest == io.main &&
        io.backup == if io.retainBackup then Some(Envelope(io.codec.encode(old(keys)).value)) else None
      ensures NumberOfKeys() == old(NumberOfKeys()) + (if failed then 0 else 1)
    {
      var rotated := Rotated(ledger, k);
      if rotated.None? {
        return true;
      }
      var key := rotated.value;
      if Signature(key) in keys {
        return true;
      }
      var pre := keys;
      keys := keys[Signature(key) := key];
      var ok := Flush(pre, keys);
      if !ok {
        keys := pre;
        return true;
      }
      RecordKeepsLedger(pre, ledger, key);
      ledger := Recorded(ledger, key);
      return false;
    }

    /** After a committed store of a key that does not name a family, fetching it gives it back. */
    lemma FetchAfterStore(k: Key, preKeys: map<string, Key>)
      requires Valid() && !IsBareSystemName(k)
      requires Signature(k) !in preKeys && keys == preKeys[Signature(k) := k]
      ensures FetchKey(k) == Some(k)
    {
    }

    /**
     * After a committed bare-name store, the family's newest version is the
     * new one: a bare-name fetch gives it, tagged with its version.
     */
    lemma FetchNewestAfterRotation(k: Key, preKeys: map<string, Key>, preLedger: map<string, Latest>)
      requires LedgerValid(preKeys, preLedger)
      requires IsBareSystemName(k) && Rotated(preLedger, k).Some?
      requires var key := Rotated(preLedger, k).value;
        keys == preKeys[Signature(key) := key] && ledger == Recorded(preLedger, key)
      requires Valid()
      ensures var next := if k.id in preLedger then preLedger[k.id].version + 1 else 1;
        FetchKey(k) == Some(Key(k.id, k.keyType, "", Tagged(next, k.data)))
    {
      RotationNamesNextVersion(preKeys, preLedger, k);
    }

    /** After a committed bare-name store, a fetch by the new version's id gives the key back as stored. */
    lemma FetchVersionAfterRotation(k: Key, preKeys: map<string, Key>, preLedger: map<string, Latest>)
      requires IsBareSystemName(k) && Rotated(preLedger, k).Some?
      requires var key := Rotated(preLedger, k).value; keys == preKeys[Signature(key) := key]
      requires Valid()
      ensures var next := if k.id in preLedger then preLedger[k.id].version + 1 else 1;
        var versioned := k.(id := VersionedId(k.id, next));
        Rotated(preLedger, k) == Some(versioned) && FetchKey(versioned) == Some(versioned)
    {
      var next := if k.id in preLedger then preLedger[k.id].version + 1 else 1;
      var vid := VersionedId(k.id, next);
      SplitVersionedId(k.id, next);
      assert !IsSystemBase(vid) by {
        if IsSystemBase(vid) {
          BaseIsNotVersioned(vid);
          assert false;
        }
      }
    }

    /** Removing a key that is not a system key leaves every family's newest version fetchable, unchanged. */
    lemma FetchAfterRemove(preKeys: map<string, Key>, preLedger: map<string, Latest>, sig: string, b: Key)
      requires WellKeyed(preKeys) && LedgerValid(preKeys, preLedger)
      requires sig in preKeys && !IsSystemKey(preKeys[sig].id, preKeys[sig].owner)
      requires keys == preKeys - {sig} && ledger == preLedger
      requires Valid() && IsBareSystemName(b)
      ensures FetchKey(b).Some? <==> b.id in preLedger
      ensures b.id in preLedger ==>
        FetchKey(b) == Some(Key(b.id, preKeys[preLedger[b.id].id].keyType, "", Tagged(preLedger[b.id].version, preKeys[preLedger[b.id].id].data)))
    {
      RemoveKeepsLedger(preKeys, preLedger, sig);
    }

    /**
     * remove_key: a system key, named bare or by version, is never removed,
     * nor is a key that is not present; otherwise the key is erased and
     * flushed, and put back when the flush fails.
     */
    method RemoveKey(t: Key) returns (failed: bool)
      requires Valid()
      modifies this, io
      ensures Valid()
      ensures var sig := Signature(t);
        var refused := IsSystemKey(t.id, t.owner) || sig !in old(keys) ||
          IsSystemKey(old(keys)[sig].id, old(keys)[sig].owner);
        (refused ==> failed && log == old(log) && io.main == old(io.main) && io.backup == old(io.backup)) &&
        (!refused ==>
          var stage := Stage(io.codec, old(keys), old(keys) - {sig}, old(io.main), old(io.digest));
          (failed <==> stage != Committed) && log == old(log) + FlushLog(stage, old(io.main)))
      ensures failed ==> keys == old(keys) && io.main == old(io.main) && io.digest == old(io.digest)
      ensures !failed ==>
        keys == old(keys) - {Signature(t)} &&
        io.main == Some(Envelope(io.codec.encode(keys).value)) && io.digest == io.main &&
        io.backup == if io.retainBackup then Some(Envelope(io.codec.encode(old(keys)).value)) else None
      ensures ledger == old(ledger)
      ensures NumberOfKeys() == old(NumberOfKeys()) - (if failed then 0 else 1)
    {
      if IsSystemKey(t.id, t.owner) {
        return true;
      }
      var sig := Signature(t);
      if sig !in keys || IsSystemKey(keys[sig].id, keys[sig].owner) {
        return true;
      }
      var pre := keys;
      keys := keys - {sig};
      var ok := Flush(pre, keys);
      if !ok {
        keys := pre;
        return true;
      }
      RemoveKeepsLedger(pre, ledger, sig);
      return false;
    }
  }
}
