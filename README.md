# Percona XtraDB Cluster server internals, modelled in Dafny

This project models five pieces of the server and proves properties of them.

- **Keys_container** (keyring plugin). This is the keyring's in-memory registry of keys, reconstructed from
  its unit tests (`unittest/gunit/keyring/keys_container-t.cc`).
  - Keys are held under their signature (id followed by owner).
  - System key families (`percona_binlog`, `percona_sk`, `percona_innodb…:n`) are versioned as
    `base:version`. A store under the bare family name is rotated to the next version. A fetch by bare
    name returns the newest version, its data tagged with `"<version>:"` inside the XOR obfuscation.
  - Every change is written in two phases through `Buffered_file_io`: the old keys go to
    `keyring.backup`, then the new keys go to the keyring file. A failed phase undoes the change in
    memory.
  - `init` prefers a well-formed backup over the keyring file. It rejects a listing that holds an
    invalid or repeated key.
- **Galera XID checkpoint** (`sql/wsrep_xid.cc`). This covers:
  - the layout of a wsrep XID (`"WSREPXid"`, the cluster UUID, then the sequence number in
    little-endian order, zero padding to 128 bytes);
  - reading the UUID and sequence number back;
  - reading the storage engines' checkpoint;
  - the order in which recovered XIDs are sorted (wsrep XIDs by seqno, all others after them).
- **Global_THD_manager** (`sql/mysqld_thd_manager.cc`). This is the registry of sessions (THDs) and
  of thread ids.
  - The list is sorted by THD address and holds no address twice. The THD count follows the list.
  - Thread ids come from a wrapping 32-bit counter that skips ids in use. The reserved id 0 is never
    handed out and is never released before the manager is destroyed.
- **binlog_utils_udf** (`plugin/binlog_utils_udf/binlog_utils_udf.cc`). This covers three UDFs:
  - `GET_BINLOG_BY_GTID`: the binlog in which a GTID first appears;
  - `GET_LAST_GTID_FROM_BINLOG`: the last GTID event of a binlog;
  - `GET_GTID_SET_BY_BINLOG`: the GTIDs a binlog itself holds.

  Each works from the PREVIOUS_GTIDS events of the log index and the value of `gtid_executed`.
- **mysqlpp UDF wrappers** (`include/mysqlpp/udf_wrappers.hpp`, `include/mysqlpp/udf_exception.hpp`,
  `plugin/test_udf_wrappers/test_udf_wrappers.cc`). This covers:
  - the glue that turns a C++ implementation class into UDF entry points;
  - how each kind of thrown exception becomes an init message or a `my_error()` call;
  - how a `udf_exception` encodes "no error code" by a sentinel;
  - the test plugin's `wrapped_udf_string`.

Files and modules:

| file | module |
|---|---|
| `wrappers.dfy` | `Wrappers` (Option, Result) |
| `keyring_key.dfy` | `KeyringKey`: keys, signatures, obfuscation, the system-key grammar |
| `keyring_io.dfy` | `KeyringIo`: the file envelope, the serializer interface, recovery, `Buffered_file_io` |
| `keyring_container.dfy` | `KeysContainer`: loading, the version ledger, rotation, the two-phase flush, `Keys_container` |
| `wsrep_xid.dfy` | `WsrepXid` |
| `thd_manager.dfy` | `ThdManager` |
| `binlog_utils.dfy` | `BinlogUtils` |
| `udf_exception.dfy` | `UdfException` |
| `udf_wrappers.dfy` | `UdfWrappers` |
| `test_udf_wrappers.dfy` | `TestUdfWrappers` |

Dafny's `/` and `%` are used only on non-negative numbers. Fixed-width integers are modelled as
newtypes: `uint32` for thread ids (the counter wraps explicitly), `int64` for seqnos and `int32` for
error codes.

## Model

| member | source | states |
|---|---|---|
| KeyringKey.Signature | unittest/gunit/keyring/keys_container-t.cc:183-188 | The signature is the id followed by the owner: both can be read back from it by position. |
| KeyringKey.ObfuscateIsInvolution | unittest/gunit/keyring/keys_container-t.cc:294-335 | XOR obfuscation undoes itself: a test obfuscates key data before storing it and again after fetching it to compare. |
| KeyringKey.DecimalRoundTrip | unittest/gunit/keyring/keys_container-t.cc:626-631 | A version printed in decimal parses back to the same number, so `percona_binlog:1` names version 1. |
| KeyringKey.VersionPrefix | unittest/gunit/keyring/keys_container-t.cc:330-335 | The tag a bare-name fetch adds is one byte longer than the version's decimal text and ends in `:`. |
| KeyringKey.VersionPrefixIsAscii | unittest/gunit/keyring/keys_container-t.cc:330-335 | The tag's bytes are the ASCII codes of the version's digits ("2:" for version 2). |
| KeyringKey.LastColon | unittest/gunit/keyring/keys_container-t.cc:309-341 | Finds the last ':' of an id, or none exactly when the id has no ':'. `percona_innodb1_2_3:0:1` splits at its second ':'. |
| KeyringKey.SplitVersion | unittest/gunit/keyring/keys_container-t.cc:293-341 | Only an id whose base is a reserved family name splits into a base and a version. |
| KeyringKey.SplitVersionParses | unittest/gunit/keyring/keys_container-t.cc:293-341 | A split cuts the id at its last ':' and reads the rest as decimal. An id without ':' never splits. |
| KeyringKey.SplitVersionedId | unittest/gunit/keyring/keys_container-t.cc:620-645 | Every `base:version` id of a family splits back into exactly that base and version. |
| KeyringKey.ColonBeforeDigits | unittest/gunit/keyring/keys_container-t.cc:620-645 | In `base:digits` the last ':' is the one right after the base. |
| KeyringKey.BaseIsNotVersioned | unittest/gunit/keyring/keys_container-t.cc:491-521 | A bare family name never reads as a versioned id, so the two kinds of system key id are disjoint. |
| KeyringIo.Envelope | unittest/gunit/keyring/keys_container-t.cc:116-135 | A keyring file is the version header, the serialized keys, then "EOF"; its length is the sum of the three. |
| KeyringIo.CheckStructure | unittest/gunit/keyring/keys_container-t.cc:148-174 | A file without the EOF tag fails with no message logged. A tagged file with the wrong version fails with "Incorrect Keyring file version". A success returns the stream the file wraps. |
| KeyringIo.EnvelopeRoundTrip | unittest/gunit/keyring/keys_container-t.cc:137-146 | A file the server wrote passes the tag check, and the structure check returns the serialized keys unchanged. |
| KeyringIo.EmptyFileLoads | unittest/gunit/keyring/keys_container-t.cc:137-146 | A keyring file holding only the version header and "EOF", with no backup, recovers as a listing of no keys. |
| KeyringIo.MapOf | unittest/gunit/keyring/keys_container-t.cc:1573-1700 | The keys of a listing, each under its own signature and no others. |
| KeyringIo.MapOfHoldsEachKey | unittest/gunit/keyring/keys_container-t.cc:1573-1700 | In a listing without repeated signatures, each key is what its signature maps to. |
| KeyringIo.ParseFile | unittest/gunit/keyring/keys_container-t.cc:137-174 | A parsed listing comes from an enveloped stream that the serializer decodes. |
| KeyringIo.WrittenFileParses | unittest/gunit/keyring/keys_container-t.cc:728-729 | A file written from keys the serializer can encode reads back as a listing of exactly those keys. |
| KeyringIo.Recovered | unittest/gunit/keyring/keys_container-t.cc:879-995 | The keys a restart finds. A well-formed backup wins. Otherwise the keyring file is used, a missing file giving an empty keyring, and a malformed file with no usable backup is an error. |
| KeyringIo.BufferedFileIo.constructor | unittest/gunit/keyring/keys_container-t.cc:657-668 | Starts with the given files, no digest, and the backup-retaining flag of the test subclass. |
| KeyringIo.BufferedFileIo.Load | unittest/gunit/keyring/keys_container-t.cc:879-995 | Returns the recovered keys. A well-formed backup becomes the keyring file. The backup is removed either way. A malformed backup logs "Found malformed keyring backup file - removing it". With no backup, a parse error of the keyring file is returned as that error's messages. A load that uses a well-formed backup, or finds no backup, logs nothing. |
| KeyringIo.BufferedFileIo.FlushToBackup | unittest/gunit/keyring/keys_container-t.cc:997-1095 | Refuses exactly when the keyring file differs from what was last read or written, and leaves no backup. It logs "Keyring file has been changed outside the server." only when the file still exists. Otherwise the backup is the enveloped stream. |
| KeyringIo.BufferedFileIo.FlushToStorage | unittest/gunit/keyring/keys_container-t.cc:739-786 | The keyring file becomes the enveloped stream and is remembered. The backup is removed unless the object retains backups. |
| KeysContainer.Loaded | unittest/gunit/keyring/keys_container-t.cc:1171-1228 | A listing loads if and only if every key is valid and no signature repeats; it then loads as the map of the listing. |
| KeysContainer.DistinctSnoc | unittest/gunit/keyring/keys_container-t.cc:1171-1199 | A listing has distinct signatures if and only if its prefix has and the last key's signature is new. |
| KeysContainer.LoadRejects | unittest/gunit/keyring/keys_container-t.cc:1171-1228 | One invalid key, or one whose signature was already loaded, rejects the whole listing. |
| KeysContainer.LoadAccepts | unittest/gunit/keyring/keys_container-t.cc:1171-1199 | A valid key with a new signature joins the keys loaded so far. |
| KeysContainer.VersionIn | unittest/gunit/keyring/keys_container-t.cc:287-364 | A key has a version within a family only when it has no owner and its id splits into that family and version. |
| KeysContainer.Recorded | unittest/gunit/keyring/keys_container-t.cc:287-364 | The recorded families grow by exactly the family of an ownerless versioned system key, and by nothing for any other key. |
| KeysContainer.EmptyIsValid | unittest/gunit/keyring/keys_container-t.cc:137-146 | The empty container is well keyed, and its empty ledger describes it. |
| KeysContainer.RecordKeepsLedger | unittest/gunit/keyring/keys_container-t.cc:287-364 | Adding a key with a new signature and recording it keeps every key under its signature. The ledger then still names, for each family, a stored key at the newest stored version. |
| KeysContainer.RecordKeepsEntries | unittest/gunit/keyring/keys_container-t.cc:287-364 | After recording, each ledger entry still names a stored key of its family at the recorded version. |
| KeysContainer.RecordKeepsNewest | unittest/gunit/keyring/keys_container-t.cc:287-364 | After recording, no stored key of a family is newer than the family's entry. |
| KeysContainer.RemoveKeepsLedger | unittest/gunit/keyring/keys_container-t.cc:523-590 | Removing a key that is not a system key keeps the keys well keyed and the ledger describing them. |
| KeysContainer.RemoveKeepsEntries | unittest/gunit/keyring/keys_container-t.cc:523-590 | A removed non-system key is never one a ledger entry names. |
| KeysContainer.RemoveKeepsNewest | unittest/gunit/keyring/keys_container-t.cc:523-590 | Removing keys never makes a stored key newer than its family's entry. |
| KeysContainer.Rotated | unittest/gunit/keyring/keys_container-t.cc:366-489 | Only a system key named by its bare family is renamed; type, owner and data stay. It fails exactly when the family already holds the last version (UINT_MAX). |
| KeysContainer.RotationNamesNextVersion | unittest/gunit/keyring/keys_container-t.cc:366-489 | A bare-name store names version newest+1 (1 for an empty family), which is newer than every stored key of the family. |
| KeysContainer.Tagged | unittest/gunit/keyring/keys_container-t.cc:330-335 | The fetched data is longer than the stored data by the length of the version tag. |
| KeysContainer.TaggedRevealsVersion | unittest/gunit/keyring/keys_container-t.cc:320-335 | Stored data is kept obfuscated. The caller obfuscates a bare-name fetch again and sees `"<version>:"` followed by the plain data. |
| KeysContainer.ListingLoads | unittest/gunit/keyring/keys_container-t.cc:720-733 | A distinct listing of a map of valid keys loads back as that map. |
| KeysContainer.RestartFindsCommittedKeys | unittest/gunit/keyring/keys_container-t.cc:739-786 | Durability: after a committed flush that leaves no backup, a restart loads exactly the keys written. |
| KeysContainer.RestartFromBackupFindsOldKeys | unittest/gunit/keyring/keys_container-t.cc:879-945 | Crash safety: once the backup holds the old keys, a restart loads them whatever the keyring file holds, and the backup becomes the keyring file. |
| KeysContainer.Keyring.constructor | unittest/gunit/keyring/keys_container-t.cc:79-89 | A new container holds no keys, no ledger entries and no log. |
| KeysContainer.Keyring.NumberOfKeys | unittest/gunit/keyring/keys_container-t.cc:176-199 | The number of distinct signatures held. |
| KeysContainer.Keyring.FetchKey | unittest/gunit/keyring/keys_container-t.cc:176-231 | A template that is not a bare family name is found if and only if its signature is held, and returns that key. A bare-name fetch returns a key under the bare name with no owner. |
| KeysContainer.Keyring.FetchGivesNewestVersion | unittest/gunit/keyring/keys_container-t.cc:287-364 | A bare-name fetch succeeds if and only if the family has a stored version. It returns the newest stored version, tagged with that version. |
| KeysContainer.Keyring.Init | unittest/gunit/keyring/keys_container-t.cc:137-174 | Fails if and only if the file layer's recovery fails or the listing does not load. On failure the container is empty and the last log entry is the malformed-keyring message. On success it holds the loaded keys, and the file layer is left recovered. A keyring file holding only the header and "EOF", with no backup, loads with no keys. |
| KeysContainer.Keyring.LoadListing | unittest/gunit/keyring/keys_container-t.cc:1154-1228 | Fails if and only if the listing does not load. On failure the container is emptied and exactly one error is logged. Otherwise it holds the listing's map, with the ledger valid. |
| KeysContainer.Keyring.Flush | unittest/gunit/keyring/keys_container-t.cc:1230-1571 | Commits if and only if both encodings succeed and the keyring file is unchanged. The log gains exactly the messages of the stage that stopped. A commit leaves the new keys in the keyring file and the old ones in the backup only when it is retained. |
| KeysContainer.Keyring.StoreKey | unittest/gunit/keyring/keys_container-t.cc:176-199 | A rotation failure or a held signature is refused with no file touched. Otherwise the key (rotated) is added if and only if the flush commits, and the failed stage is logged. A failure restores keys and ledger. The key count grows by one on success. |
| KeysContainer.Keyring.FetchAfterStore | unittest/gunit/keyring/keys_container-t.cc:592-618 | After a committed store of a key that does not name a family, fetching it returns it unchanged. |
| KeysContainer.Keyring.FetchNewestAfterRotation | unittest/gunit/keyring/keys_container-t.cc:366-489 | After a committed bare-name store, a bare-name fetch returns the stored data tagged with the new version. |
| KeysContainer.Keyring.FetchVersionAfterRotation | unittest/gunit/keyring/keys_container-t.cc:620-645 | After a committed bare-name store, the key is stored as `base:next` and a fetch by that id returns it as stored. |
| KeysContainer.Keyring.FetchAfterRemove | unittest/gunit/keyring/keys_container-t.cc:523-590 | Removing a regular key leaves every family's bare-name fetch exactly as before. |
| KeysContainer.Keyring.RemoveKey | unittest/gunit/keyring/keys_container-t.cc:491-521 | A system key, named bare or by version, or an absent key, is refused with no file touched. Otherwise the key is removed if and only if the flush commits. The ledger never changes, and the key count drops by one on success. |
| WsrepXid.LittleEndianRoundTrip | sql/wsrep_xid.cc:46-47 | Reading back the `n` little-endian bytes of a number below 256^n gives the number. |
| WsrepXid.SeqnoBytes | sql/wsrep_xid.cc:46-47 | A seqno is stored in exactly 8 bytes. The round trips below show that they hold the seqno faithfully. |
| WsrepXid.SeqnoRoundTrip | sql/wsrep_xid.cc:68-80 | Reading back the 8 bytes of any seqno, negative ones included, gives the seqno. |
| WsrepXid.SeqnoBytesRoundTrip | sql/wsrep_xid.cc:68-80 | Any 8 bytes read as a seqno and written back are the same bytes. |
| WsrepXid.XidUuid | sql/wsrep_xid.cc:59-66 | A wsrep XID yields bytes 8 to 23 of its data; any other XID yields the undefined (all-zero) UUID. |
| WsrepXid.XidSeqno | sql/wsrep_xid.cc:68-80 | A wsrep XID yields the seqno stored at bytes 24 to 31; any other XID yields -1. |
| WsrepXid.Memset | sql/wsrep_xid.cc:42 | Every byte of the buffer becomes zero. |
| WsrepXid.Memcpy | sql/wsrep_xid.cc:43-45 | The copied bytes replace exactly their range of the buffer; the rest is unchanged. |
| WsrepXid.CopiesMakeLayout | sql/wsrep_xid.cc:42-45 | The three copies into a zeroed buffer give prefix, UUID, seqno bytes, then zeros. |
| WsrepXid.XidInit | sql/wsrep_xid.cc:34-48 | Builds format 1, gtrid length 32 and bqual length 0, with the data laid out as above. The result is a wsrep XID from which the same UUID and seqno read back. |
| WsrepXid.CheckpointRoundTrip | sql/wsrep_xid.cc:50-80 | Any XID with the wsrep layout is recognised, and its UUID and seqno read back. |
| WsrepXid.SortKey | sql/wsrep_xid.cc:158-183 | Wsrep XIDs are keyed by their seqno. Every other XID gets a key above every seqno. |
| WsrepXid.XidLessIsKeyLess | sql/wsrep_xid.cc:164-183 | The comparator holds if and only if the left key is smaller. |
| WsrepXid.XidLessIsStrictWeakOrder | sql/wsrep_xid.cc:164-188 | The comparator is irreflexive and transitive, and incomparability is transitive, as std::sort requires. |
| WsrepXid.SortedMeansWsrepFirst | sql/wsrep_xid.cc:158-183 | In a sorted array no later XID is less than an earlier one, every wsrep XID precedes every other XID, and wsrep seqnos ascend. |
| WsrepXid.SwapAdjacent | sql/wsrep_xid.cc:185-188 | Swaps two neighbours and keeps the array a permutation of itself. |
| WsrepXid.InsertIntoSorted | sql/wsrep_xid.cc:185-188 | Extends a sorted prefix by one element, as a permutation, with the rest unchanged. |
| WsrepXid.SortByKey | sql/wsrep_xid.cc:185-188 | The first `len` elements become sorted by key and a permutation of what they were. Elements past `len` are unchanged. |
| WsrepXid.SortXidArray | sql/wsrep_xid.cc:185-188 | The first `len` XIDs become sorted by the comparator and a permutation of what they were. The rest is unchanged. |
| WsrepXid.GetSECheckpoint | sql/wsrep_xid.cc:135-156 | With wsrep off, nothing changes. With it on: a wsrep XID yields its UUID and seqno; the nil XID yields undefined values silently; any other XID yields undefined values and the warning "Read non-wsrep XID from storage engines.". |
| ThdManager.Next | sql/mysqld_thd_manager.cc:257-265 | `thread_id_counter++` on 32 bits wraps modulo 2^32. |
| ThdManager.Dist | sql/mysqld_thd_manager.cc:257-265 | The number of increments from one id to another, below 2^32 and zero exactly for equal ids. |
| ThdManager.LowerBound | sql/mysqld_thd_manager.cc:197-254 | Binary search in the address-sorted list: everything before the position is lower, everything from it on is not. |
| ThdManager.FindFirst | sql/mysqld_thd_manager.cc:356-367 | None if and only if no THD matches. Otherwise it returns the first match in list order. |
| ThdManager.GlobalThdManager.constructor | sql/mysqld_thd_manager.cc:111-139 | Starts with an empty list and a count of 0. The counter stands at 1 and only the reserved id 0 is in use. |
| ThdManager.GlobalThdManager.Destroy | sql/mysqld_thd_manager.cc:159-175 | Releases the reserved id; the destructor's assertions (no THDs, no ids) then hold. The counter and the THD count are unchanged. |
| ThdManager.GlobalThdManager.AddThd | sql/mysqld_thd_manager.cc:197-220 | Inserts if and only if no listed THD has the address. The list stays sorted, gains exactly that THD, and the count grows by one only on insert. Ids are untouched. |
| ThdManager.GlobalThdManager.RemoveThd | sql/mysqld_thd_manager.cc:223-254 | Erases one entry if and only if the address is listed: exactly that entry leaves, in order, and the count drops only then. Afterwards the address is not listed. |
| ThdManager.GlobalThdManager.GetNewThreadId | sql/mysqld_thd_manager.cc:257-265 | Returns an id that was not in use, never the reserved one, and marks it in use. The counter is left one past it (mod 2^32). Every id skipped on the way was in use. |
| ThdManager.GlobalThdManager.ReleaseThreadId | sql/mysqld_thd_manager.cc:268-277 | Releasing the reserved id does nothing. Any other id leaves the set, erased if and only if it was present. |
| ThdManager.GlobalThdManager.FindThd | sql/mysqld_thd_manager.cc:356-367 | Returns the first registered THD the predicate accepts, or none if and only if no THD does. |
| BinlogUtils.EndPos | plugin/binlog_utils_udf/binlog_utils_udf.cc:157-159 | Any binlog other than the active one is read without limit. |
| BinlogUtils.CutOff | plugin/binlog_utils_udf/binlog_utils_udf.cc:164-171 | The scan reads events up to and including the first at or past the end position. |
| BinlogUtils.FirstPreviousGtids | plugin/binlog_utils_udf/binlog_utils_udf.cc:164-172 | Returns the first PREVIOUS_GTIDS event, or none if and only if there is no such event. |
| BinlogUtils.LastGtidOf | plugin/binlog_utils_udf/binlog_utils_udf.cc:220-230 | Returns the last GTID event, or none if and only if there is no such event. |
| BinlogUtils.PreviousGtidsScanFindsFirst | plugin/binlog_utils_udf/binlog_utils_udf.cc:164-172 | Without read errors, find_previous_gtids_event returns the first PREVIOUS_GTIDS event among the events it reads. |
| BinlogUtils.LastGtidScanFindsLast | plugin/binlog_utils_udf/binlog_utils_udf.cc:216-230 | Without read errors, find_last_gtid_event returns the last GTID event among the events it reads. |
| BinlogUtils.LastGtidScanWithAccumulator | plugin/binlog_utils_udf/binlog_utils_udf.cc:220-230 | The scan's remembered event is the last GTID read so far, or the one carried in. |
| BinlogUtils.FindPreviousGtidsEvent | plugin/binlog_utils_udf/binlog_utils_udf.cc:142-173 | The loop returns the event, or the reader's error as a runtime_error, as the scan specification says. |
| BinlogUtils.FindLastGtidEvent | plugin/binlog_utils_udf/binlog_utils_udf.cc:197-231 | The loop returns the last GTID event read, or the reader's error, as the scan specification says. |
| BinlogUtils.ExtractedPrevious | plugin/binlog_utils_udf/binlog_utils_udf.cc:174-195 | With an event, its GTIDs. With none, the empty set for the first binlog and the "middle of log index" error otherwise. Reader errors pass through. |
| BinlogUtils.ExtractPreviousGtids | plugin/binlog_utils_udf/binlog_utils_udf.cc:174-195 | Returns the extracted set, and whether the event was there. |
| BinlogUtils.ExtractedLastGtid | plugin/binlog_utils_udf/binlog_utils_udf.cc:233-246 | No GTID event gives none. An event whose SID cannot be entered into the call's fresh SID map (negative sidno) gives "Invalid GTID event encountered". An event with a valid sidno is returned as it is. Reader errors pass through unchanged. |
| BinlogUtils.LastGtidFromEvents | plugin/binlog_utils_udf/binlog_utils_udf.cc:197-246 | For a binlog read without errors, the result is the last GTID event among the events the scan reads. It is none (the empty string) when there is no such event, and the error when that GTID's SID cannot be entered into the SID map (negative sidno). |
| BinlogUtils.CheckUdfArgs | plugin/binlog_utils_udf/binlog_utils_udf.cc:255-265 | Succeeds if and only if the plugin is installed and there is one argument. The not-installed check comes first. |
| BinlogUtils.GetBinlogByGtidConstructor | plugin/binlog_utils_udf/binlog_utils_udf.cc:255-270 | Throws invalid_argument unless installed with one argument, with GET_BINLOG_BY_GTID's arity message. |
| BinlogUtils.GetLastGtidFromBinlogConstructor | plugin/binlog_utils_udf/binlog_utils_udf.cc:338-353 | The same checks, with GET_LAST_GTID_FROM_BINLOG's arity message. |
| BinlogUtils.GetGtidSetByBinlogConstructor | plugin/binlog_utils_udf/binlog_utils_udf.cc:388-403 | The same checks, with get_gtid_set_by_binlog's arity message. |
| BinlogUtils.BinlogByGtid | plugin/binlog_utils_udf/binlog_utils_udf.cc:279-329 | The error order is: unparsable GTID, unparsable gtid_executed, unreadable index, then empty index (messages verbatim, stray quote included). |
| BinlogUtils.GetBinlogByGtid | plugin/binlog_utils_udf/binlog_utils_udf.cc:279-329 | The do-while from the newest binlog back returns the corrected specification's name or error. A GTID found nowhere gives the empty string, not NULL. |
| BinlogUtils.NewestHome | plugin/binlog_utils_udf/binlog_utils_udf.cc:312-322 | The newest position at or below `k` where the GTID first appears, with no such position above it. |
| BinlogUtils.ScanBackFindsNewestHome | plugin/binlog_utils_udf/binlog_utils_udf.cc:312-326 | When every binlog has a PREVIOUS_GTIDS event, the scan returns the binlog at the newest position where the GTID first appears, or "" when there is none. |
| BinlogUtils.FindBackward | plugin/binlog_utils_udf/binlog_utils_udf.cc:424-427 | Returns the last position holding the name, or none if and only if the name is absent. |
| BinlogUtils.LastIndexOf | plugin/binlog_utils_udf/binlog_utils_udf.cc:424-427 | The last position of a name that is present. |
| BinlogUtils.GtidSetByBinlog | plugin/binlog_utils_udf/binlog_utils_udf.cc:412-461 | The error order is: unreadable index, empty index, unknown binlog (verbatim messages). For a listed name, the last occurrence is used. Its own previous GTIDs come first, then the covering set, errors passing through. The covering set is the next binlog's previous GTIDs, or gtid_executed for the newest. The result is the covering set minus the binlog's own previous GTIDs. An oldest binlog without the event counts as the empty set. |
| BinlogUtils.GetGtidSetByBinlog | plugin/binlog_utils_udf/binlog_utils_udf.cc:412-461 | The method computes exactly the specification above. |
| BinlogUtils.GtidSetOfPosition | plugin/binlog_utils_udf/binlog_utils_udf.cc:434-456 | When every binlog has the event, a binlog's GTIDs are the next binlog's previous GTIDs (gtid_executed for the newest) minus its own. |
| BinlogUtils.GtidSetAndLocatorAgree | plugin/binlog_utils_udf/binlog_utils_udf.cc:279-461 | Consider cumulative PREVIOUS_GTIDS events over distinct names. Every GTID that GET_GTID_SET_BY_BINLOG reports for a binlog is located in that binlog by GET_BINLOG_BY_GTID. |
| BinlogUtils.AsWrittenVisitedBinlogNeedsEvent | plugin/binlog_utils_udf/binlog_utils_udf.cc:314 | As written, any visited binlog without the event, the oldest included, ends the call with the "middle of log index" error. |
| BinlogUtils.IntendedOldestMayLackEvent | plugin/binlog_utils_udf/binlog_utils_udf.cc:312-322 | With the intended test, that error comes only from a binlog other than the oldest (or from a reader error carrying that text). |
| BinlogUtils.FirstBinlogCounterexample | plugin/binlog_utils_udf/binlog_utils_udf.cc:312-326 | Take a one-binlog index without the event. As written the call fails; as intended it returns that binlog. |
| BinlogUtils.GetLastGtidFromBinlog | plugin/binlog_utils_udf/binlog_utils_udf.cc:362-379 | Returns the extracted last GTID (none meaning the empty string), which is the last GTID event read (see LastGtidFromEvents). A returned GTID has a valid sidno. |
| UdfException.SentinelHasAllBitsSet | include/mysqlpp/udf_exception.hpp:12 | The sentinel `~int{}` is the all-ones bit pattern, that is, -1. |
| UdfException.NewUdfException | include/mysqlpp/udf_exception.hpp:15-22 | Keeps the message. It has a code if and only if the code is not the sentinel, and then returns that code. |
| UdfException.NewCodelessUdfException | include/mysqlpp/udf_exception.hpp:15-21 | Without a code argument the exception keeps the message and has no code. |
| UdfException.ExplicitSentinelIsCodeless | include/mysqlpp/udf_exception.hpp:15-21 | Passing the sentinel explicitly cannot be told apart from passing no code. |
| UdfWrappers.HandleException | include/mysqlpp/udf_wrappers.hpp:60-73 | No my_error if and only if it is a udf_exception without a code. A coded one raises its code. Other exceptions raise ER_UDF_ERROR. The arguments are the function name and `what()`, or "unexpected exception" for a non-std throw. |
| UdfWrappers.InitMessage | include/mysqlpp/udf_wrappers.hpp:35-45 | `what()` of a std::exception, "unexpected exception" for anything else. |
| UdfWrappers.CString | include/mysqlpp/udf_wrappers.hpp:38-43 | The C string in a buffer is its NUL-free prefix up to the first NUL. |
| UdfWrappers.CStringEndsAtFirstNul | include/mysqlpp/udf_wrappers.hpp:38-43 | A NUL-free prefix followed by a NUL is exactly the buffer's C string. |
| UdfWrappers.CStringOfNulFree | include/mysqlpp/udf_wrappers.hpp:38-43 | A buffer without NUL reads back whole. |
| UdfWrappers.Take | include/mysqlpp/udf_wrappers.hpp:38-39 | A prefix of length min(n, size). |
| UdfWrappers.Strncpy | include/mysqlpp/udf_wrappers.hpp:38 | The first `n` bytes become the source's C string padded with NULs. The bytes past `n` are unchanged. |
| UdfWrappers.CopyInitMessage | include/mysqlpp/udf_wrappers.hpp:38-39 | Whatever its length, the buffer then holds the message cut to MYSQL_ERRMSG_SIZE - 1 characters as a terminated C string. |
| UdfWrappers.UdfInit.constructor | include/mysqlpp/udf_wrappers.hpp:32-34 | No implementation pointer, result not marked nullable. |
| UdfWrappers.Init | include/mysqlpp/udf_wrappers.hpp:32-50 | Fails if and only if the constructor threw: the pointer is then untouched and the buffer holds the cut message. On success the pointer is set and the buffer untouched. |
| UdfWrappers.Deinit | include/mysqlpp/udf_wrappers.hpp:52-59 | The implementation object is released. |
| UdfWrappers.StringFunc | include/mysqlpp/udf_wrappers.hpp:85-109 | Sets `error` to 1 if and only if `calculate` threw; the raised error is then handle_exception's, and `is_null` and `length` are unchanged. A NULL view sets `is_null`. Any other view is returned with its length. |
| TestUdfWrappers.ConstructorThrows | plugin/test_udf_wrappers/test_udf_wrappers.cc:15-29 | Succeeds if and only if there is one argument. 2, 3 and 4 arguments throw the codeless udf_exception, the coded one and `42`; any other count throws invalid_argument. |
| TestUdfWrappers.ConstructorMessagesFit | plugin/test_udf_wrappers/test_udf_wrappers.cc:15-29 | Every init message the constructor can cause fits the buffer and reaches the caller whole. |
| TestUdfWrappers.WrappedUdfStringImpl.constructor | plugin/test_udf_wrappers/test_udf_wrappers.cc:53 | The result buffer starts empty. |
| TestUdfWrappers.WrappedUdfStringImpl.Calculate | plugin/test_udf_wrappers/test_udf_wrappers.cc:32-50 | NULL gives the NULL view. "100" raises ER_DA_OOM and throws the codeless exception. "101", "102" and "103" throw the coded exception, runtime_error and `42`. Any other value returns "[" + value + "]", kept in the object. |
| TestUdfWrappers.WrappedUdfStringInit | plugin/test_udf_wrappers/test_udf_wrappers.cc:15-29 | Fails if and only if the argument count is not 1, and leaves the exact message for each count. On success the result is nullable and the object is new. |
| TestUdfWrappers.WrappedUdfString | plugin/test_udf_wrappers/test_udf_wrappers.cc:32-50 | End to end: `error` is 1 if and only if the argument is "100" to "103", with each case's errors in order, and 0 otherwise. NULL is returned as NULL with the length unchanged. Any other value comes back bracketed with its length. |

## Left out

- File I/O: keyring files are optional byte strings held by `KeyringIo.BufferedFileIo`. Opening, reading, renaming and truncating are not modelled; a truncated backup is modelled as absent.
- The file digest: `Buffered_file_io` compares checksums. The model compares the exact content last read or written, so a checksum collision is not modelled.
- The serializer's byte format: `KeyringIo.Codec` is an abstract encode/decode pair. Only two properties are assumed, stated by `RoundTrips`: an empty stream decodes to no keys, and a stream the serializer wrote decodes back to the keys it was written from.
- `Mock_logger`, `Mock_serializer` and `Mock_keyring_io` are not modelled as classes. Logging is the container's `log` field, and serializer failures are encodings that return None.
- KeyringKey.ObfuscationMask: the XOR mask bytes are placeholders. The properties proved hold for any non-empty mask.
- The keyring sources themselves (`keys_container.cc`, `buffered_file_io.cc`, `system_keys_container.cc`) are not part of this model. The container is reconstructed from its unit tests; the choices this required follow.
  - The system-key grammar. `percona_binlog` and `percona_sk` are family names exactly, and so is every id starting with `percona_innodb` that holds exactly one ':'. A versioned id is a family name, ':', then a decimal version read after the id's last ':'. The unit tests show only examples of this grammar.
  - Valid key types are {AES, RSA, DSA}.
  - Rotation fails at version UINT_MAX.
  - The duplicate-signature check happens before any file is touched.
  - The ledger is updated only on a committed store.
  - `remove_key` also refuses a stored key that is a system key.
  - `fetch_key` is a function that touches no file.
- KeysContainer.Keyring.Init: on failure the contract gives the last log entry, not every message the file layer logged before it.
- The error codes ER_UDF_ERROR, ER_DA_OOM and ER_WRAPPED_UDF_EXCEPTION carry placeholder numbers. The server's error list is not part of this model; only their distinctness is used.
- The REAL_RESULT wrapper `generic_udf<ImplType, REAL_RESULT>` and the test plugin's real UDF are not modelled, because they compute in floating point.
- The `DECLARE_*_UDF` macros and plugin registration are not modelled. The entry points are modelled as methods.
- Global_THD_manager's mutexes and condition variables, `wait_till_no_thd`, `wait_till_wsrep_thd_eq`, `do_for_all_thd` and `do_for_all_thd_copy` are not modelled. They are concurrency and callback plumbing.
- Also not modelled: the WSREP running-thread counters, `create_instance`/`destroy_instance`, and `set_thread_id_counter` (unit-test only).
- UdfWrappers.StringFunc: requires the result to be nullable when `calculate` returns a NULL view, which the source asserts.
- ThdManager.GlobalThdManager.GetNewThreadId: requires that some id is free. With all 2^32 ids in use the source loops forever.
- ThdManager.GlobalThdManager.AddThd: requires a thread id other than the reserved one, which the source asserts. The debug assertions on a duplicate add or a missing remove are modelled as the returned flags instead.
- UdfWrappers.Deinit: the source deletes the implementation object and leaves `initid->ptr` dangling. The model clears the pointer instead, so a use after deinit is not modelled.
- THD addresses are natural numbers; the THD object itself is not modelled.
- The wsrep checkpoint plumbing (`sql/wsrep_xid.cc` lines 82-133: plugin_foreach over the handlertons, `wsrep_set_SE_checkpoint`) is not modelled. WsrepXid.GetSECheckpoint takes the XID the storage engines return as an input.
- WsrepXid.SeqnoBytes: the source copies the seqno in the host's byte order. The model fixes little-endian. Both round trips hold for any fixed byte order, but the XID bytes written on a big-endian host differ from the model's.
- WsrepXid.SortXidArray: `std::sort` is modelled by an insertion sort with the same ordering contract (sorted by the comparator, a permutation). The position of equivalent XIDs is not specified either way.
- Also left out: the binlog plugin's registration and initialisation (lines 25-103), and `extract_sys_var_value`. The value of `gtid_executed` is an input, None when it does not parse.
- `Binlog_file_reader` and the event iterator are left out. A binlog is a sequence of events or an unreadable file, and reader errors are events that carry their message.
- GTID and GTID-set text parsing and `to_string` are left out. Arguments arrive parsed (None when unparsable), and results are sets or a GTID, not text.
- BinlogUtils.GetBinlogByGtid: follows the corrected `is_first` test; the as-written behaviour is `BinlogByGtid(…, false)` (see Findings).

## Findings

| source | as written | input that shows it | evidently intended | confidence | as-written member | corrected member |
|---|---|---|---|---|---|---|
| plugin/binlog_utils_udf/binlog_utils_udf.cc:314 | `is_first` is `rit.base() == bg`. The base of a reverse iterator points one past its element, so this never holds and the oldest binlog is never treated as first. | An index holding only `binlog.000001`, whose events are an ordinary event and a GTID event for `g`, with no PREVIOUS_GTIDS event; `gtid_executed` = {g}. GET_BINLOG_BY_GTID(g) throws "Encountered binary log without PREVIOUS_GTIDS_LOG_EVENT in the middle of log index". | The oldest binlog may lack the event and then stands for the empty set (`rit + 1 == ren`), so the call returns `binlog.000001`. | not executed; latent while every binlog carries a PREVIOUS_GTIDS event | BinlogUtils.FirstBinlogCounterexample | BinlogUtils.IntendedOldestMayLackEvent |
