/**
 * Keyring keys: the key record and its signature, the self-inverse
 * obfuscation of key data, and the grammar of system keys, whose ids carry
 * a decimal version after the last ':' of a reserved base name.
 */
module KeyringKey {
  import opened Wrappers

  type Bytes = seq<bv8>

  /**
   * A key: its id, its type ("AES", ...), its owner (the user id, empty for
   * system keys, as the C++ class turns a NULL owner into an empty string)
   * and its data bytes.
   */
  datatype Key = Key(id: string, keyType: string, owner: string, data: Bytes)

  /** The signature that identifies a key in the keyring: its id followed by its owner. */
  function Signature(k: Key): (s: string)
    ensures |s| == |k.id| + |k.owner|
    ensures s[..|k.id|] == k.id && s[|k.id|..] == k.owner
  {
    k.id + k.owner
  }

  /**
   * The bytes key data is XORed with, cyclically. Their values are not part
   * of this model; any non-empty mask gives the same properties.
   */
  const ObfuscationMask: Bytes := [0x2A, 0x33, 0x30, 0x35]

  /** Key::xor_data: each byte XORed with the mask byte at its position. */
  function Obfuscate(data: Bytes): (r: Bytes)
    ensures |r| == |data|
    ensures forall i :: 0 <= i < |data| ==> r[i] == data[i] ^ ObfuscationMask[i % |ObfuscationMask|]
  {
    seq(|data|, i requires 0 <= i < |data| => data[i] ^ ObfuscationMask[i % |ObfuscationMask|])
  }

  /** Obfuscating twice gives the data back: the same call hides and reveals. */
  lemma ObfuscateIsInvolution(data: Bytes)
    ensures Obfuscate(Obfuscate(data)) == data
  {
    var once := Obfuscate(data);
    var twice := Obfuscate(once);
    forall i | 0 <= i < |data|
      ensures twice[i] == data[i]
    {
      var m := ObfuscationMask[i % |ObfuscationMask|];
      assert twice[i] == (data[i] ^ m) ^ m;
    }
  }

  // ---------------------------------------------------------------------
  // Decimal versions
  // ---------------------------------------------------------------------

  /** The decimal digits of `n`, most significant first, without leading zeros. */
  function Digits(n: nat): (ds: seq<nat>)
    ensures 1 <= |ds|
    ensures forall i :: 0 <= i < |ds| ==> ds[i] < 10
    ensures |ds| > 1 ==> ds[0] != 0
    decreases n
  {
    if n < 10 then [n] else Digits(n / 10) + [n % 10]
  }

  /** The number a sequence of decimal digits denotes. */
  function ValueOf(ds: seq<nat>): nat
  {
    if ds == [] then 0 else ValueOf(ds[..|ds| - 1]) * 10 + ds[|ds| - 1]
  }

  lemma {:induction false} ValueOfDigits(n: nat)
    ensures ValueOf(Digits(n)) == n
    decreases n
  {
    if n >= 10 {
      ValueOfDigits(n / 10);
      var ds := Digits(n);
      assert ds[..|ds| - 1] == Digits(n / 10);
    }
  }

  predicate IsDigit(c: char)
  {
    '0' <= c <= '9'
  }

  function DigitChar(d: nat): char
    requires d < 10
  {
    ('0' as int + d) as char
  }

  /** The decimal text of `n`. */
  function DecimalString(n: nat): (s: string)
    ensures 1 <= |s| && forall i :: 0 <= i < |s| ==> IsDigit(s[i])
  {
    var ds := Digits(n);
    seq(|ds|, i requires 0 <= i < |ds| => DigitChar(ds[i]))
  }

  /** A decimal text read back as a number: one or more digits and nothing else. */
  function ParseDecimal(s: string): (r: Option<nat>)
    ensures r.Some? <==> |s| >= 1 && forall i :: 0 <= i < |s| ==> IsDigit(s[i])
  {
    if |s| >= 1 && forall i :: 0 <= i < |s| ==> IsDigit(s[i]) then
      Some(ValueOf(seq(|s|, i requires 0 <= i < |s| => (s[i] as int - '0' as int) as nat)))
    else None
  }

  /** Printing a version and parsing it back gives the version. */
  lemma DecimalRoundTrip(n: nat)
    ensures ParseDecimal(DecimalString(n)) == Some(n)
  {
    var s := DecimalString(n);
    var ds := Digits(n);
    assert seq(|s|, i requires 0 <= i < |s| => (s[i] as int - '0' as int) as nat) == ds;
    ValueOfDigits(n);
  }

  /** The ASCII codes of the digits 0 to 9. */
  const AsciiDigits: Bytes := [0x30, 0x31, 0x32, 0x33, 0x34, 0x35, 0x36, 0x37, 0x38, 0x39]

  /** The ASCII bytes of a decimal version followed by ':': the tag a fetched system key's data starts with. */
  function VersionPrefix(v: nat): (p: Bytes)
    ensures |p| == |DecimalString(v)| + 1
    ensures p[|p| - 1] == 0x3A
  {
    var ds := Digits(v);
    seq(|ds|, i requires 0 <= i < |ds| => AsciiDigits[ds[i]]) + [0x3A]
  }

  /** The tag is the decimal text of the version, byte for byte, then ':'. */
  lemma VersionPrefixIsAscii(v: nat)
    ensures forall i :: 0 <= i < |VersionPrefix(v)| - 1 ==> VersionPrefix(v)[i] as int == DecimalString(v)[i] as int
  {
    forall d | 0 <= d < 10
      ensures AsciiDigits[d] as int == DigitChar(d) as int
    {
    }
  }

  // ---------------------------------------------------------------------
  // System keys
  // ---------------------------------------------------------------------

  const BinlogBase: string := "percona_binlog"
  const SecretBase: string := "percona_sk"
  const InnodbPrefix: string := "percona_innodb"

  function ColonCount(s: string): nat
  {
    if s == [] then 0 else ColonCount(s[..|s| - 1]) + (if s[|s| - 1] == ':' then 1 else 0)
  }

  /** The position of the last ':' in `s`. */
  function LastColon(s: string): (r: Option<nat>)
    ensures r.Some? ==> r.value < |s| && s[r.value] == ':' && forall j :: r.value < j < |s| ==> s[j] != ':'
    ensures r.None? <==> forall j :: 0 <= j < |s| ==> s[j] != ':'
  {
    if s == [] then None
    else if s[|s| - 1] == ':' then Some(|s| - 1)
    else LastColon(s[..|s| - 1])
  }

  /** A string with no ':' has none to count. */
  lemma {:induction false} NoColonCountsZero(s: string)
    requires forall j :: 0 <= j < |s| ==> s[j] != ':'
    ensures ColonCount(s) == 0
  {
    if s != [] {
      NoColonCountsZero(s[..|s| - 1]);
    }
  }

  /** Counting the colons of a string split at its last colon. */
  lemma {:induction false} ColonCountSplit(s: string, i: nat)
    requires i < |s| && s[i] == ':' && forall j :: i < j < |s| ==> s[j] != ':'
    ensures ColonCount(s) == ColonCount(s[..i]) + 1
    decreases |s|
  {
    if |s| - 1 > i {
      ColonCountSplit(s[..|s| - 1], i);
      assert s[..|s| - 1][..i] == s[..i];
    } else {
      assert s[..|s| - 1] == s[..i];
    }
  }

  /**
   * The reserved base names: the binlog and secret-key families, and every
   * InnoDB key family, whose base is "percona_innodb..." with exactly one ':'.
   */
  predicate IsSystemBase(id: string)
  {
    id == BinlogBase || id == SecretBase ||
    (|id| >= |InnodbPrefix| && id[..|InnodbPrefix|] == InnodbPrefix && ColonCount(id) == 1)
  }

  /** The id of version `v` of a system key family. */
  function VersionedId(base: string, v: nat): string
  {
    base + ":" + DecimalString(v)
  }

  /** A versioned system key id split into its base and its version: after the last ':', a decimal. */
  function SplitVersion(id: string): (r: Option<(string, nat)>)
    ensures r.Some? ==> IsSystemBase(r.value.0)
  {
    match LastColon(id)
    case None => None
    case Some(i) =>
      match ParseDecimal(id[i + 1..])
      case None => None
      case Some(v) => if IsSystemBase(id[..i]) then Some((id[..i], v)) else None
  }

  /**
   * What a successful split means: the base is a reserved base name, it ends
   * at the id's last ':', and what follows that ':' is the decimal version.
   */
  lemma SplitVersionParses(id: string)
    ensures SplitVersion(id).Some? ==>
      var (base, v) := SplitVersion(id).value;
      LastColon(id) == Some(|base|) && id[..|base|] == base && ParseDecimal(id[|base| + 1..]) == Some(v)
    ensures LastColon(id).None? ==> SplitVersion(id).None?
  {
  }

  /** Every version id of a family splits back into the family and the version. */
  lemma SplitVersionedId(base: string, v: nat)
    requires IsSystemBase(base)
    ensures SplitVersion(VersionedId(base, v)) == Some((base, v))
  {
    ColonBeforeDigits(base, DecimalString(v));
    DecimalRoundTrip(v);
  }

  /** In `base:digits` the last ':' is the one after the base. */
  lemma ColonBeforeDigits(base: string, digits: string)
    requires forall i :: 0 <= i < |digits| ==> IsDigit(digits[i])
    ensures var id := base + ":" + digits;
      LastColon(id) == Some(|base|) && id[..|base|] == base && id[|base| + 1..] == digits
  {
    var id := base + ":" + digits;
    assert forall j :: |base| < j < |id| ==> id[j] == digits[j - |base| - 1];
    assert id[|base|] == ':';
    assert id[..|base|] == base;
    assert id[|base| + 1..] == digits;
  }

  /** A base name is never read as a versioned id, so the two kinds of system key id never overlap. */
  lemma BaseIsNotVersioned(id: string)
    requires IsSystemBase(id)
    ensures SplitVersion(id).None?
  {
    match LastColon(id)
    case None =>
    case Some(i) =>
      if id == BinlogBase || id == SecretBase {
        assert false;
      }
      ColonCountSplit(id, i);
      assert ColonCount(id[..i]) == 0;
      assert i >= |InnodbPrefix|;
      var base := id[..i];
      assert base[..|InnodbPrefix|] == InnodbPrefix;
      assert base != BinlogBase && base != SecretBase by {
        if |base| == |BinlogBase| {
          assert base[8] == 'i';
        }
      }
      assert !IsSystemBase(base);
  }

  /** Whether a key belongs to a system key family: no owner, and a base name or a versioned id. */
  predicate IsSystemKey(id: string, owner: string)
  {
    owner == "" && (IsSystemBase(id) || SplitVersion(id).Some?)
  }
}
