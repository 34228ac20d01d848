/**
 * Galera's transaction checkpoint, stored in an XA transaction id (XID):
 * the XID's data holds the bytes "WSREPXid", then the 16-byte cluster UUID,
 * then the 8-byte sequence number (in the machine's little-endian layout),
 * and the rest of the 128 data bytes are zero. Also the order in which
 * recovered XIDs are replayed: Galera XIDs by sequence number, all other
 * XIDs after them.
 */
module WsrepXid {
  import opened Wrappers

  /** The C `long long` of wsrep_seqno_t. */
  newtype int64 = x: int | -0x8000_0000_0000_0000 <= x < 0x8000_0000_0000_0000

  /** One byte of raw memory, as memcpy copies it. */
  newtype byte = x: int | 0 <= x < 256

  /** XIDDATASIZE: the size of an XID's data buffer. */
  const XidDataSize: nat := 128

  /** The data buffer of an XID. */
  type XidData = s: seq<byte> | |s| == XidDataSize witness seq(128, _ => 0 as byte)

  /** sizeof(wsrep_uuid_t). */
  const UuidSize: nat := 16

  /** wsrep_uuid_t: 16 raw bytes. */
  type Uuid = s: seq<byte> | |s| == UuidSize witness seq(16, _ => 0 as byte)

  /** sizeof(wsrep_seqno_t). */
  const SeqnoSize: nat := 8

  /** The bytes of WSREP_XID_PREFIX, "WSREPXid". */
  const Prefix: seq<byte> := [0x57, 0x53, 0x52, 0x45, 0x50, 0x58, 0x69, 0x64]
  const PrefixLen: nat := 8
  const UuidOffset: nat := 8
  const SeqnoOffset: nat := UuidOffset + UuidSize
  const GtridLen: nat := SeqnoOffset + SeqnoSize

  /** WSREP_UUID_UNDEFINED: all zero bytes. */
  const UuidUndefined: Uuid := [0, 0, 0, 0, 0, 0, 0, 0, 0, 0, 0, 0, 0, 0, 0, 0]

  /** WSREP_SEQNO_UNDEFINED. */
  const SeqnoUndefined: int64 := -1

  /** The XID struct: format id (-1 for the nil XID), the two length fields and the data. */
  datatype Xid = Xid(formatId: int64, gtridLength: int64, bqualLength: int64, data: XidData)

  /** Little-endian encoding of a natural number into `n` bytes, the low byte first. */
  function LittleEndian(u: nat, n: nat): (r: seq<byte>)
    ensures |r| == n
  {
    if n == 0 then [] else [(u % 256) as byte] + LittleEndian(u / 256, n - 1)
  }

  function Pow256(n: nat): (p: nat)
    ensures p > 0
  {
    if n == 0 then 1 else 256 * Pow256(n - 1)
  }

  /** The natural number whose little-endian bytes are `bs`; `n` bytes hold less than 256^n. */
  function FromLittleEndian(bs: seq<byte>): (u: nat)
    ensures u < Pow256(|bs|)
  {
    if bs == [] then 0 else bs[0] as nat + 256 * FromLittleEndian(bs[1..])
  }

  /** The low byte and the rest of a number below 256^n: the rest is below 256^(n-1). */
  lemma SplitBelowPow(u: nat, n: nat)
    requires 0 < n && u < Pow256(n)
    ensures ((u % 256) as byte) as nat + 256 * (u / 256) == u
    ensures u / 256 < Pow256(n - 1)
  {
    var q, r := u / 256, u % 256;
    var p := Pow256(n - 1);
    assert Pow256(n) == 256 * p;
    assert 256 * q <= u;
  }


  /** Decoding `n` little-endian bytes gives back any number below 256^n. */
  lemma {:induction false} LittleEndianRoundTrip(u: nat, n: nat)
    requires u < Pow256(n)
    ensures FromLittleEndian(LittleEndian(u, n)) == u
  {
    if n > 0 {
      var q := u / 256;
      SplitBelowPow(u, n);
      LittleEndianRoundTrip(q, n - 1);
      var bs := LittleEndian(u, n);
      assert bs[1..] == LittleEndian(q, n - 1);
    }
  }

  /** The 8 bytes memcpy copies out of a wsrep_seqno_t: two's complement, little-endian. */
  function SeqnoBytes(s: int64): (r: seq<byte>)
    ensures |r| == SeqnoSize
  {
    LittleEndian(if s < 0 then s as int + Pow256(8) else s as int, SeqnoSize)
  }

  /** The wsrep_seqno_t memcpy reads back from 8 bytes. */
  function SeqnoFromBytes(bs: seq<byte>): (s: int64)
    requires |bs| == SeqnoSize
  {
    assert Pow256(8) == 0x1_0000_0000_0000_0000;
    var u := FromLittleEndian(bs);
    if u >= 0x8000_0000_0000_0000 then (u - Pow256(8)) as int64 else u as int64
  }

  /** Copying a seqno into bytes and back gives the same seqno. */
  lemma SeqnoRoundTrip(s: int64)
    ensures SeqnoFromBytes(SeqnoBytes(s)) == s
  {
    assert Pow256(8) == 0x1_0000_0000_0000_0000;
    LittleEndianRoundTrip(if s < 0 then s as int + Pow256(8) else s as int, SeqnoSize);
  }

  /** wsrep_is_wsrep_xid. */
  predicate IsWsrepXid(x: Xid)
  {
    x.formatId == 1 && x.gtridLength == GtridLen as int64 && x.bqualLength == 0 && x.data[..PrefixLen] == Prefix
  }

  /** wsrep_xid_uuid: the UUID bytes of a Galera XID, otherwise the undefined UUID. */
  function XidUuid(x: Xid): (u: Uuid)
    ensures IsWsrepXid(x) ==> u == x.data[UuidOffset..SeqnoOffset]
    ensures !IsWsrepXid(x) ==> u == UuidUndefined
  {
    if IsWsrepXid(x) then x.data[UuidOffset..SeqnoOffset] else UuidUndefined
  }

  /** wsrep_xid_seqno: the seqno of a Galera XID, otherwise the undefined seqno. */
  function XidSeqno(x: Xid): (s: int64)
    ensures IsWsrepXid(x) ==> s == SeqnoFromBytes(x.data[SeqnoOffset..GtridLen])
    ensures !IsWsrepXid(x) ==> s == SeqnoUndefined
  {
    if IsWsrepXid(x) then SeqnoFromBytes(x.data[SeqnoOffset..GtridLen]) else SeqnoUndefined
  }

  /** Reading a seqno out of 8 bytes and writing it back gives the same bytes. */
  lemma SeqnoBytesRoundTrip(bs: seq<byte>)
    requires |bs| == SeqnoSize
    ensures SeqnoBytes(SeqnoFromBytes(bs)) == bs
  {
    assert Pow256(8) == 0x1_0000_0000_0000_0000;
    LittleEndianOfFromLittleEndian(bs);
  }

  /** Encoding the value of some bytes in as many bytes gives them back. */
  lemma {:induction false} LittleEndianOfFromLittleEndian(bs: seq<byte>)
    ensures LittleEndian(FromLittleEndian(bs), |bs|) == bs
  {
    if bs != [] {
      LittleEndianOfFromLittleEndian(bs[1..]);
      var v := FromLittleEndian(bs[1..]);
      LowByteSplit(bs[0] as nat, v);
      assert LittleEndian(FromLittleEndian(bs), |bs|) == [bs[0]] + LittleEndian(v, |bs| - 1);
    }
  }

  /** The low byte and the rest of `b + 256 * v`. */
  lemma LowByteSplit(b: nat, v: nat)
    requires b < 256
    ensures (b + 256 * v) % 256 == b && (b + 256 * v) / 256 == v
  {
  }

  /** memset(buf, 0, buf.Length). */
  method Memset(buf: array<byte>)
    modifies buf
    ensures forall i :: 0 <= i < buf.Length ==> buf[i] == 0
  {
    var i := 0;
    while i < buf.Length
      invariant i <= buf.Length
      invariant forall k :: 0 <= k < i ==> buf[k] == 0
    {
      buf[i] := 0;
      i := i + 1;
    }
  }

  /** memcpy(buf + offset, src, |src|). */
  method Memcpy(buf: array<byte>, offset: nat, src: seq<byte>)
    requires offset + |src| <= buf.Length
    modifies buf
    ensures buf[..] == old(buf[..offset]) + src + old(buf[offset + |src|..])
  {
    var i := 0;
    while i < |src|
      invariant i <= |src|
      invariant forall k :: 0 <= k < buf.Length ==>
        buf[k] == if offset <= k < offset + i then src[k - offset] else old(buf[k])
    {
      buf[offset + i] := src[i];
      i := i + 1;
    }
    assert buf[..] == old(buf[..offset]) + src + old(buf[offset + |src|..]);
  }

  /** The three copies of wsrep_xid_init, over a zeroed buffer, leave the Galera layout. */
  lemma CopiesMakeLayout(cleared: seq<byte>, withPrefix: seq<byte>, withUuid: seq<byte>, done: seq<byte>,
                         uuid: Uuid, seqnoBytes: seq<byte>)
    requires |cleared| == XidDataSize && |seqnoBytes| == SeqnoSize
    requires forall i :: 0 <= i < |cleared| ==> cleared[i] == 0
    requires withPrefix == Prefix + cleared[PrefixLen..]
    requires withUuid == withPrefix[..UuidOffset] + uuid + withPrefix[SeqnoOffset..]
    requires done == withUuid[..SeqnoOffset] + seqnoBytes + withUuid[GtridLen..]
    ensures done == Prefix + uuid + seqnoBytes + seq(XidDataSize - GtridLen, _ => 0 as byte)
  {
    assert withUuid[..SeqnoOffset] == Prefix + uuid;
    assert withUuid[GtridLen..] == cleared[GtridLen..];
    assert cleared[GtridLen..] == seq(XidDataSize - GtridLen, _ => 0 as byte);
  }

  /**
   * wsrep_xid_init: resets the XID and fills it with the Galera layout,
   * assembled in a local buffer.
   */
  method XidInit(uuid: Uuid, seqno: int64) returns (xid: Xid)
    ensures xid.formatId == 1 && xid.gtridLength == GtridLen as int64 && xid.bqualLength == 0
    ensures xid.data == Prefix + uuid + SeqnoBytes(seqno) + seq(XidDataSize - GtridLen, _ => 0 as byte)
    ensures IsWsrepXid(xid)
    ensures XidUuid(xid) == uuid && XidSeqno(xid) == seqno
  {
    var data := new byte[XidDataSize];
    Memset(data);
    ghost var cleared := data[..];
    Memcpy(data, 0, Prefix);
    ghost var withPrefix := data[..];
    Memcpy(data, UuidOffset, uuid);
    ghost var withUuid := data[..];
    Memcpy(data, SeqnoOffset, SeqnoBytes(seqno));
    CopiesMakeLayout(cleared, withPrefix, withUuid, data[..], uuid, SeqnoBytes(seqno));
    xid := Xid(1, GtridLen as int64, 0, data[..]);
    CheckpointRoundTrip(uuid, seqno, xid);
  }

  /** Wsrep_xid_cmp: the "less than" std::sort is given. */
  predicate XidLess(left: Xid, right: Xid)
  {
    if IsWsrepXid(left) && IsWsrepXid(right) then XidSeqno(left) < XidSeqno(right)
    else IsWsrepXid(left)
  }

  /** The position an XID takes in the sorted array: its seqno, or past every seqno. */
  function SortKey(x: Xid): (k: int)
    ensures IsWsrepXid(x) ==> k == XidSeqno(x) as int
    ensures !IsWsrepXid(x) ==> k >= 0x8000_0000_0000_0000
  {
    if IsWsrepXid(x) then XidSeqno(x) as int else 0x8000_0000_0000_0000
  }

  /** The comparator is "less than" on sort keys, so it is a strict weak ordering. */
  lemma XidLessIsKeyLess(left: Xid, right: Xid)
    ensures XidLess(left, right) <==> SortKey(left) < SortKey(right)
  {
  }

  lemma XidLessIsStrictWeakOrder(a: Xid, b: Xid, c: Xid)
    ensures !XidLess(a, a)
    ensures XidLess(a, b) && XidLess(b, c) ==> XidLess(a, c)
    ensures !XidLess(a, b) && !XidLess(b, a) && !XidLess(b, c) && !XidLess(c, b) ==> !XidLess(a, c) && !XidLess(c, a)
  {
    XidLessIsKeyLess(a, b);
    XidLessIsKeyLess(b, c);
    XidLessIsKeyLess(a, c);
    XidLessIsKeyLess(c, a);
  }

  /** Sorted for Wsrep_xid_cmp: no element is less than one before it. */
  predicate SortedXids(s: seq<Xid>)
  {
    forall p, q :: 0 <= p < q < |s| ==> SortKey(s[p]) <= SortKey(s[q])
  }

  /** In a sorted array every Galera XID precedes every other XID, and the seqnos do not decrease. */
  lemma SortedMeansWsrepFirst(s: seq<Xid>, p: nat, q: nat)
    requires SortedXids(s) && p < q < |s|
    ensures !XidLess(s[q], s[p])
    ensures IsWsrepXid(s[q]) ==> IsWsrepXid(s[p])
    ensures IsWsrepXid(s[p]) && IsWsrepXid(s[q]) ==> XidSeqno(s[p]) <= XidSeqno(s[q])
  {
  }

  /** Exchanges two adjacent entries. */
  method SwapAdjacent<T>(a: array<T>, j: nat)
    requires 0 < j < a.Length
    modifies a
    ensures a[j - 1] == old(a[j]) && a[j] == old(a[j - 1])
    ensures forall k :: 0 <= k < a.Length && k != j - 1 && k != j ==> a[k] == old(a[k])
    ensures multiset(a[..]) == multiset(old(a[..]))
  {
    a[j - 1], a[j] := a[j], a[j - 1];
  }

  /**
   * One step of the sort: the entry at `i` moves down past every entry of
   * the sorted prefix `a[..i]` with a larger key.
   */
  method InsertIntoSorted<T>(a: array<T>, i: nat, key: T -> int)
    requires i < a.Length
    requires forall p, q :: 0 <= p < q < i ==> key(a[p]) <= key(a[q])
    modifies a
    ensures forall p, q :: 0 <= p < q <= i ==> key(a[p]) <= key(a[q])
    ensures forall k :: i < k < a.Length ==> a[k] == old(a[k])
    ensures multiset(a[..]) == multiset(old(a[..]))
  {
    var j := i;
    while j > 0 && key(a[j - 1]) > key(a[j])
      invariant 0 <= j <= i
      invariant forall p, q :: 0 <= p < q <= i && p != j && q != j ==> key(a[p]) <= key(a[q])
      invariant forall q :: j < q <= i ==> key(a[j]) <= key(a[q])
      invariant forall k :: i < k < a.Length ==> a[k] == old(a[k])
      invariant multiset(a[..]) == multiset(old(a[..]))
    {
      SwapAdjacent(a, j);
      j := j - 1;
    }
  }

  /**
   * std::sort(a, a + len, cmp) for a comparator `cmp(x, y)` that is
   * `key(x) < key(y)`: the first `len` entries are permuted into
   * non-decreasing key order, the rest are not touched.
   */
  method SortByKey<T>(a: array<T>, len: int, key: T -> int)
    requires 0 <= len <= a.Length
    modifies a
    ensures forall p, q :: 0 <= p < q < len ==> key(a[p]) <= key(a[q])
    ensures multiset(a[..len]) == multiset(old(a[..len]))
    ensures a[len..] == old(a[len..])
  {
    var i := 0;
    while i < len
      invariant 0 <= i <= len
      invariant forall p, q :: 0 <= p < q < i ==> key(a[p]) <= key(a[q])
      invariant forall k :: len <= k < a.Length ==> a[k] == old(a[k])
      invariant multiset(a[..]) == multiset(old(a[..]))
    {
      InsertIntoSorted(a, i, key);
      i := i + 1;
    }
    assert a[len..] == old(a[len..]);
    calc {
      multiset(a[..len]) + multiset(a[len..]);
      { assert a[..] == a[..len] + a[len..]; }
      multiset(a[..]);
      multiset(old(a[..]));
      { assert old(a[..]) == old(a[..len]) + old(a[len..]); }
      multiset(old(a[..len])) + multiset(old(a[len..]));
    }
    MultisetCancel(multiset(a[..len]), multiset(old(a[..len])), multiset(a[len..]));
  }

  lemma MultisetCancel<T>(x: multiset<T>, y: multiset<T>, z: multiset<T>)
    requires x + z == y + z
    ensures x == y
  {
    assert forall e :: x[e] == (x + z)[e] - z[e];
  }

  /**
   * wsrep_sort_xid_array(array, len). std::sort is not stable, so only the
   * order of keys and the multiset of entries are promised.
   */
  method SortXidArray(a: array<Xid>, len: int)
    requires 0 <= len <= a.Length
    modifies a
    ensures SortedXids(a[..len])
    ensures multiset(a[..len]) == multiset(old(a[..len]))
    ensures a[len..] == old(a[len..])
  {
    SortByKey(a, len, SortKey);
  }

  /**
   * wsrep_get_SE_checkpoint(uuid, seqno), given `stored`, the XID the storage
   * engine reports. `warning` is the message logged, if any.
   */
  method GetSECheckpoint(wsrepOn: bool, uuidIn: Uuid, seqnoIn: int64, stored: Xid)
    returns (uuid: Uuid, seqno: int64, warning: Option<string>)
    ensures !wsrepOn ==> uuid == uuidIn && seqno == seqnoIn && warning == None
    ensures wsrepOn && IsWsrepXid(stored) ==> uuid == XidUuid(stored) && seqno == XidSeqno(stored) && warning == None
    ensures wsrepOn && !IsWsrepXid(stored) ==> uuid == UuidUndefined && seqno == SeqnoUndefined
    ensures warning.Some? <==> wsrepOn && stored.formatId != -1 && !IsWsrepXid(stored)
    ensures warning.Some? ==> warning.value == "Read non-wsrep XID from storage engines."
  {
    uuid, seqno, warning := uuidIn, seqnoIn, None;
    if !wsrepOn {
      return;
    }
    uuid := UuidUndefined;
    seqno := SeqnoUndefined;
    if stored.formatId == -1 {
      return;
    }
    if !IsWsrepXid(stored) {
      warning := Some("Read non-wsrep XID from storage engines.");
      return;
    }
    uuid := XidUuid(stored);
    seqno := XidSeqno(stored);
  }

  /** A checkpoint written with wsrep_xid_init reads back as the same UUID and seqno. */
  lemma CheckpointRoundTrip(uuid: Uuid, seqno: int64, x: Xid)
    requires x.formatId == 1 && x.gtridLength == GtridLen as int64 && x.bqualLength == 0
    requires x.data == Prefix + uuid + SeqnoBytes(seqno) + seq(XidDataSize - GtridLen, _ => 0 as byte)
    ensures IsWsrepXid(x) && XidUuid(x) == uuid && XidSeqno(x) == seqno
  {
    assert x.data[..PrefixLen] == Prefix;
    assert x.data[UuidOffset..SeqnoOffset] == uuid;
    assert x.data[SeqnoOffset..GtridLen] == SeqnoBytes(seqno);
    SeqnoRoundTrip(seqno);
  }
}
