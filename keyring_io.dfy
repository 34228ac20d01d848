/**
 * Buffered_file_io: the keyring file and its backup. Both hold the same
 * envelope: the version header, the serialized keys, the tag "EOF". A
 * change goes to the backup first (the state before the change) and to the
 * keyring file second; the backup is then removed. Before writing, the
 * keyring file is compared with what this object last read or wrote, so a
 * file changed or deleted behind the server's back is not overwritten.
 */
module KeyringIo {
  import opened Wrappers
  import opened KeyringKey

  datatype Level = Error | Warning

  /** One call of the logger. */
  datatype LogEntry = LogEntry(level: Level, message: string)

  const IncorrectVersionMessage: string := "Incorrect Keyring file version"
  const ChangedOutsideMessage: string := "Keyring file has been changed outside the server."
  const MalformedBackupMessage: string := "Found malformed keyring backup file - removing it"

  /** "Keyring file version:1.0" in ASCII. */
  const Header: Bytes := [0x4B, 0x65, 0x79, 0x72, 0x69, 0x6E, 0x67, 0x20, 0x66, 0x69, 0x6C, 0x65, 0x20,
                          0x76, 0x65, 0x72, 0x73, 0x69, 0x6F, 0x6E, 0x3A, 0x31, 0x2E, 0x30]

  /** "EOF" in ASCII. */
  const EofTag: Bytes := [0x45, 0x4F, 0x46]

  /** The bytes of a keyring file holding the serialized keys `stream`. */
  function Envelope(stream: Bytes): (b: Bytes)
    ensures |b| == |Header| + |stream| + |EofTag|
  {
    Header + stream + EofTag
  }

  /** check_if_file_exists_and_TAG_is_correct: the file exists, has three bytes or more, and ends in "EOF". */
  predicate HasEofTag(file: Option<Bytes>)
  {
    file.Some? && |file.value| >= 3 && file.value[|file.value| - 3..] == EofTag
  }

  /**
   * The structure check of a keyring file: the tag first, then the version
   * header. A wrong header is logged; a missing tag is not.
   */
  function CheckStructure(b: Bytes): (r: Result<Bytes, seq<LogEntry>>)
    ensures r.Ok? ==> b == Envelope(r.value)
    ensures !HasEofTag(Some(b)) ==> r == Err([])
    ensures HasEofTag(Some(b)) && r.Err? ==> r.error == [LogEntry(Error, IncorrectVersionMessage)]
  {
    if !HasEofTag(Some(b)) then Err([])
    else if |b| < |Header| + |EofTag| || b[..|Header|] != Header then Err([LogEntry(Error, IncorrectVersionMessage)])
    else
      var stream := b[|Header|..|b| - |EofTag|];
      assert b == Header + stream + EofTag;
      Ok(stream)
  }

  /** What the structure check makes of a file it wrote itself: the serialized keys, unchanged. */
  lemma EnvelopeRoundTrip(stream: Bytes)
    ensures HasEofTag(Some(Envelope(stream)))
    ensures CheckStructure(Envelope(stream)) == Ok(stream)
  {
    var b := Envelope(stream);
    assert b[|b| - 3..] == EofTag;
    assert b[..|Header|] == Header;
    assert b[|Header|..|b| - |EofTag|] == stream;
  }

  /** The map a key listing describes, each key under its signature. */
  function MapOf(ks: seq<Key>): (m: map<string, Key>)
    ensures forall sig :: sig in m <==> exists i :: 0 <= i < |ks| && Signature(ks[i]) == sig
    ensures forall sig :: sig in m ==> Signature(m[sig]) == sig
  {
    if ks == [] then map[]
    else
      var m := MapOf(ks[..|ks| - 1]);
      assert forall i :: 0 <= i < |ks| - 1 ==> ks[..|ks| - 1][i] == ks[i];
      m[Signature(ks[|ks| - 1]) := ks[|ks| - 1]]
  }

  /** No two keys of the listing share a signature. */
  predicate DistinctSignatures(ks: seq<Key>)
  {
    forall i, j :: 0 <= i < j < |ks| ==> Signature(ks[i]) != Signature(ks[j])
  }

  /** In a listing without repeated signatures, each key is what its signature maps to. */
  lemma {:induction false} MapOfHoldsEachKey(ks: seq<Key>)
    requires DistinctSignatures(ks)
    ensures forall i :: 0 <= i < |ks| ==> MapOf(ks)[Signature(ks[i])] == ks[i]
  {
    if ks != [] {
      var init := ks[..|ks| - 1];
      assert forall i :: 0 <= i < |init| ==> init[i] == ks[i];
      MapOfHoldsEachKey(init);
      forall i | 0 <= i < |ks| - 1
        ensures MapOf(ks)[Signature(ks[i])] == ks[i]
      {
        assert init[i] == ks[i];
        assert Signature(ks[i]) != Signature(ks[|ks| - 1]);
      }
    }
  }

  /**
   * The serializer: `encode` turns the keys into a stream, or fails (the
   * NULL serialized object); `decode` reads a stream back as a key listing,
   * or fails on malformed content. The byte format is not part of this model.
   */
  datatype Codec = Codec(encode: map<string, Key> -> Option<Bytes>, decode: Bytes -> Option<seq<Key>>)

  /**
   * What the keyring relies on of a serializer: an empty stream (the file
   * "Keyring file version:1.0EOF") reads as no keys, and a stream the
   * serializer wrote reads back as a listing of exactly those keys, each once.
   */
  ghost predicate RoundTrips(c: Codec)
  {
    c.decode([]) == Some([]) &&
    forall m :: c.encode(m).Some? ==>
      c.decode(c.encode(m).value).Some? &&
      DistinctSignatures(c.decode(c.encode(m).value).value) &&
      MapOf(c.decode(c.encode(m).value).value) == m
  }

  /** A keyring file read back: the structure check, then the serializer. */
  function ParseFile(c: Codec, b: Bytes): (r: Result<seq<Key>, seq<LogEntry>>)
    ensures r.Ok? ==> exists stream :: b == Envelope(stream) && c.decode(stream) == Some(r.value)
  {
    match CheckStructure(b)
    case Err(es) => Err(es)
    case Ok(stream) =>
      match c.decode(stream)
      case None => Err([])
      case Some(ks) => Ok(ks)
  }

  /** A file written from keys the serializer could encode reads back as a listing of those keys. */
  lemma WrittenFileParses(c: Codec, m: map<string, Key>)
    requires RoundTrips(c) && c.encode(m).Some?
    ensures ParseFile(c, Envelope(c.encode(m).value)).Ok?
    ensures var ks := ParseFile(c, Envelope(c.encode(m).value)).value;
      DistinctSignatures(ks) && MapOf(ks) == m
  {
    EnvelopeRoundTrip(c.encode(m).value);
  }

  /**
   * The keys a restart finds: those of a well-formed backup, else those of
   * the keyring file, else none when there is no keyring file; a malformed
   * keyring file without a usable backup is an error.
   */
  function Recovered(c: Codec, main: Option<Bytes>, backup: Option<Bytes>): (r: Result<seq<Key>, ()>)
    ensures backup.Some? && ParseFile(c, backup.value).Ok? ==> r == Ok(ParseFile(c, backup.value).value)
    ensures (backup.None? || ParseFile(c, backup.value).Err?) && main.None? ==> r == Ok([])
    ensures (backup.None? || ParseFile(c, backup.value).Err?) && main.Some? ==>
      (r.Ok? <==> ParseFile(c, main.value).Ok?) && (r.Ok? ==> r.value == ParseFile(c, main.value).value)
  {
    if backup.Some? && ParseFile(c, backup.value).Ok? then Ok(ParseFile(c, backup.value).value)
    else if main.None? then Ok([])
    else if ParseFile(c, main.value).Ok? then Ok(ParseFile(c, main.value).value)
    else Err(())
  }

  /** A keyring file holding only the header and the tag is a keyring without keys. */
  lemma EmptyFileLoads(c: Codec)
    requires RoundTrips(c)
    ensures Recovered(c, Some(Envelope([])), None) == Ok([])
  {
    EnvelopeRoundTrip([]);
  }

  /** The keyring file after a restart: a well-formed backup replaces it. */
  function RecoveredMain(main: Option<Bytes>, backup: Option<Bytes>, c: Codec): Option<Bytes>
  {
    if backup.Some? && ParseFile(c, backup.value).Ok? then backup else main
  }

  class BufferedFileIo {
    /** The keyring file; None when it does not exist. */
    var main: Option<Bytes>
    /** The file `<keyring>.backup`. */
    var backup: Option<Bytes>
    /** The content of the keyring file as this object last read or wrote it (None: no file). */
    var digest: Option<Bytes>
    /** Buffered_file_io_dont_remove_backup: remove_backup does nothing. */
    const retainBackup: bool
    const codec: Codec

    constructor (main: Option<Bytes>, backup: Option<Bytes>, retainBackup: bool, codec: Codec)
      ensures this.main == main && this.backup == backup && digest == None
      ensures this.retainBackup == retainBackup && this.codec == codec
    {
      this.main := main;
      this.backup := backup;
      digest := None;
      this.retainBackup := retainBackup;
      this.codec := codec;
    }

    /**
     * init followed by get_serialized_object: a well-formed backup wins over
     * the keyring file, is written back as the keyring file and removed; a
     * malformed one is logged and removed. A missing keyring file is an
     * empty keyring.
     */
    method Load() returns (r: Result<seq<Key>, ()>, entries: seq<LogEntry>)
      modifies this
      ensures r == Recovered(codec, old(main), old(backup))
      ensures main == RecoveredMain(old(main), old(backup), codec) && digest == main && backup == None
      ensures old(backup).Some? && ParseFile(codec, old(backup).value).Err? ==>
        |entries| >= 1 && entries[0] == LogEntry(Warning, MalformedBackupMessage)
      ensures old(backup).None? && old(main).Some? && r.Err? ==> entries == ParseFile(codec, old(main).value).error
      ensures r.Ok? && (old(backup).None? || ParseFile(codec, old(backup).value).Ok?) ==> entries == []
    {
      entries := [];
      if backup.Some? {
        var fromBackup := ParseFile(codec, backup.value);
        if fromBackup.Ok? {
          main := backup;
          digest := main;
          backup := None;
          return Ok(fromBackup.value), entries;
        }
        entries := [LogEntry(Warning, MalformedBackupMessage)];
        backup := None;
      }
      digest := main;
      if main.None? {
        return Ok([]), entries;
      }
      var fromMain := ParseFile(codec, main.value);
      if fromMain.Err? {
        return Err(()), entries + fromMain.error;
      }
      return Ok(fromMain.value), entries;
    }

    /**
     * flush_to_backup: refuses when the keyring file is no longer what this
     * object last saw, leaving no backup behind; otherwise writes `stream`
     * to the backup.
     */
    method FlushToBackup(stream: Bytes) returns (ok: bool, entries: seq<LogEntry>)
      modifies this
      ensures ok <==> old(main) == old(digest)
      ensures ok ==> backup == Some(Envelope(stream)) && entries == []
      ensures !ok ==> backup == None
      ensures !ok && old(main).Some? ==> entries == [LogEntry(Error, ChangedOutsideMessage)]
      ensures !ok && old(main).None? ==> entries == []
      ensures main == old(main) && digest == old(digest)
    {
      if main != digest {
        backup := None;
        entries := if main.Some? then [LogEntry(Error, ChangedOutsideMessage)] else [];
        return false, entries;
      }
      backup := Some(Envelope(stream));
      return true, [];
    }

    /** flush_to_storage: writes the keyring file, remembers it, and removes the backup unless retained. */
    method FlushToStorage(stream: Bytes)
      modifies this
      ensures main == Some(Envelope(stream)) && digest == main
      ensures backup == if retainBackup then old(backup) else None
    {
      main := Some(Envelope(stream));
      digest := main;
      if !retainBackup {
        backup := None;
      }
    }
  }
}
