/**
 * Selection of the digest algorithm (the HASHTYPE tag) and the hash objects
 * that `InitializeHashObject` hands to the read loop. The digest functions
 * themselves (MD5, SHA-1, SHA-256, SHA-512) are not modelled: a `HexFn` stands
 * for hashlib's `hexdigest()` of the bytes fed to an object.
 */
module Hashing {
  import opened Common

  /** The four algorithms the program offers. */
  datatype Algorithm = MD5 | SHA1 | SHA256 | SHA512

  /** The tag stored in HASHTYPE for each algorithm. */
  function Name(a: Algorithm): string
  {
    match a
    case MD5 => "MD5"
    case SHA1 => "SHA1"
    case SHA256 => "SHA256"
    case SHA512 => "SHA512"
  }

  predicate IsHashTypeName(t: string)
  {
    t == "MD5" || t == "SHA1" || t == "SHA256" || t == "SHA512"
  }

  /**
   * The `if/elif` chain of the constructor: the first set flag in the order
   * md5, sha1, sha256, sha512 decides, and MD5 is the default.
   */
  function SelectHashType(md5: bool, sha1: bool, sha256: bool, sha512: bool): (t: string)
    ensures IsHashTypeName(t)
    ensures t == "MD5" <==> md5 || (!sha1 && !sha256 && !sha512)
    ensures t == "SHA1" <==> !md5 && sha1
    ensures t == "SHA256" <==> !md5 && !sha1 && sha256
    ensures t == "SHA512" <==> !md5 && !sha1 && !sha256 && sha512
  {
    if md5 then "MD5"
    else if sha1 then "SHA1"
    else if sha256 then "SHA256"
    else if sha512 then "SHA512"
    else "MD5"
  }

  /** The flag the command line sets for an algorithm. */
  predicate FlagsSelect(a: Algorithm, md5: bool, sha1: bool, sha256: bool, sha512: bool)
  {
    md5 == (a == MD5) && sha1 == (a == SHA1) && sha256 == (a == SHA256) && sha512 == (a == SHA512)
  }

  /**
   * The command line makes the four flags a required, mutually exclusive
   * group, so exactly one is set, and that one is the algorithm chosen.
   */
  lemma SelectionFollowsTheFlag(a: Algorithm, md5: bool, sha1: bool, sha256: bool, sha512: bool)
    requires FlagsSelect(a, md5, sha1, sha256, sha512)
    ensures SelectHashType(md5, sha1, sha256, sha512) == Name(a)
  {
  }

  /** hashlib's `hexdigest()`: the lower-case hex digest of the bytes fed in. */
  type HexFn = (Algorithm, seq<byte>) -> string

  /** The bytes of a sequence of updates, in order. */
  function Flatten(cs: seq<seq<byte>>): seq<byte>
  {
    if cs == [] then [] else cs[0] + Flatten(cs[1..])
  }

  lemma {:induction false} FlattenConcat(a: seq<seq<byte>>, b: seq<seq<byte>>)
    ensures Flatten(a + b) == Flatten(a) + Flatten(b)
    decreases |a|
  {
    if a == [] {
      assert a + b == b;
    } else {
      assert (a + b)[0] == a[0];
      assert (a + b)[1..] == a[1..] + b;
      FlattenConcat(a[1..], b);
    }
  }

  /**
   * A hash object: its algorithm and the chunks it has been updated with, in
   * order. Its digest depends only on their concatenation, the bytes fed.
   */
  datatype HashObject = HashObject(algorithm: Algorithm, updates: seq<seq<byte>>)
  {
    /** All bytes fed so far. */
    function Fed(): seq<byte>
    {
      Flatten(updates)
    }

    /** `update(chunk)`: one more update, whose bytes follow those fed so far. */
    function Update(chunk: seq<byte>): (h: HashObject)
      ensures h.algorithm == algorithm && h.updates == updates + [chunk]
      ensures h.Fed() == Fed() + chunk
    {
      FlattenConcat(updates, [chunk]);
      assert Flatten([chunk]) == chunk + Flatten([]);
      HashObject(algorithm, updates + [chunk])
    }

    /** `hexdigest()` */
    function HexDigest(hex: HexFn): string
    {
      hex(algorithm, Fed())
    }
  }

  /**
   * `InitializeHashObject`: a fresh object for each of the four tags, and
   * None (Python's None) for any other string.
   */
  function InitializeHashObject(hashType: string): (obj: Option<HashObject>)
    ensures obj.Some? <==> IsHashTypeName(hashType)
    ensures obj.Some? ==> Name(obj.value.algorithm) == hashType && obj.value.updates == []
  {
    if hashType == "MD5" then Some(HashObject(MD5, []))
    else if hashType == "SHA1" then Some(HashObject(SHA1, []))
    else if hashType == "SHA256" then Some(HashObject(SHA256, []))
    else if hashType == "SHA512" then Some(HashObject(SHA512, []))
    else None
  }

  /** Digest length in bytes of each algorithm (RFC 1321, FIPS 180-4). */
  function DigestSize(a: Algorithm): nat
  {
    match a
    case MD5 => 16
    case SHA1 => 20
    case SHA256 => 32
    case SHA512 => 64
  }

  predicate IsLowerHexChar(c: char)
  {
    ('0' <= c <= '9') || ('a' <= c <= 'f')
  }

  predicate IsUpperHexChar(c: char)
  {
    ('0' <= c <= '9') || ('A' <= c <= 'F')
  }

  predicate IsLowerHex(s: string)
  {
    forall i :: 0 <= i < |s| ==> IsLowerHexChar(s[i])
  }

  predicate IsUpperHex(s: string)
  {
    forall i :: 0 <= i < |s| ==> IsUpperHexChar(s[i])
  }

  /** What hashlib promises of `hexdigest()`: two lower-case hex digits per digest byte. */
  ghost predicate HexdigestContract(hex: HexFn)
  {
    forall a, data :: |hex(a, data)| == 2 * DigestSize(a) && IsLowerHex(hex(a, data))
  }

  /** `str.upper()` on one character, for the ASCII letters. */
  function UpperChar(c: char): char
  {
    if 'a' <= c <= 'z' then (c as int - 32) as char else c
  }

  /** `str.upper()`: every ASCII lower-case letter replaced by its capital. */
  function Upper(s: string): (u: string)
    ensures |u| == |s|
  {
    if s == [] then [] else [UpperChar(s[0])] + Upper(s[1..])
  }

  lemma {:induction false} UpperAt(s: string, i: nat)
    requires i < |s|
    ensures Upper(s)[i] == UpperChar(s[i])
  {
    if i > 0 {
      UpperAt(s[1..], i - 1);
    }
  }

  /** Upper-casing a lower-case hex string gives the upper-case hex string of the same digits. */
  lemma UpperOfLowerHex(s: string)
    requires IsLowerHex(s)
    ensures |Upper(s)| == |s| && IsUpperHex(Upper(s))
    ensures forall i :: 0 <= i < |s| && '0' <= s[i] <= '9' ==> Upper(s)[i] == s[i]
  {
    forall i | 0 <= i < |s|
      ensures IsUpperHexChar(Upper(s)[i]) && ('0' <= s[i] <= '9' ==> Upper(s)[i] == s[i])
    {
      UpperAt(s, i);
    }
  }

  /**
   * The digest the program stores: upper-case hex, 32, 40, 64 or 128
   * characters for MD5, SHA-1, SHA-256 and SHA-512.
   */
  lemma StoredDigestFormat(hex: HexFn, a: Algorithm, data: seq<byte>)
    requires HexdigestContract(hex)
    ensures |Upper(hex(a, data))| == 2 * DigestSize(a)
    ensures IsUpperHex(Upper(hex(a, data)))
    ensures |Upper(hex(a, data))| in {32, 40, 64, 128}
  {
    UpperOfLowerHex(hex(a, data));
  }
}
