/** The decorative certification helpers of src/utils/blockchain.js: the
    lowercase hex rendering of a digest and the certificate record. The
    digest itself (SHA-256, computed by the platform), the JSON
    serialisation and the clock are parameters. */
module BlockchainSim {
  import opened Wrappers
  import opened Numerals

  type Byte = b: int | 0 <= b < 256

  /** A character of `0-9a-f`. */
  predicate IsLowerHex(c: char) {
    '0' <= c <= '9' || 'a' <= c <= 'f'
  }

  /** The lowercase hex digit of a value below 16. */
  function HexDigit(n: nat): (c: char)
    requires n < 16
    ensures IsLowerHex(c)
  {
    if n < 10 then (n + '0' as int) as char else (n - 10 + 'a' as int) as char
  }

  /** `n.toString(16)`: the shortest lowercase hex text of `n`. */
  function ToHex(n: nat): (s: string)
    ensures 1 <= |s|
    ensures forall i :: 0 <= i < |s| ==> IsLowerHex(s[i])
  {
    if n < 16 then [HexDigit(n)] else ToHex(n / 16) + [HexDigit(n % 16)]
  }

  /** `n` copies of `c`. */
  function Repeat(c: char, n: nat): (r: string)
    ensures |r| == n
  {
    if n == 0 then [] else Repeat(c, n - 1) + [c]
  }

  /** `s.padStart(width, fill)` for a one-character fill: `fill` repeated
      in front of `s` up to `width` characters; `s` itself when it is
      already that long. */
  function PadStart(s: string, width: nat, fill: char): (r: string)
    ensures r == Repeat(fill, if |s| < width then width - |s| else 0) + s
    decreases width - |s|
  {
    if |s| >= width then s
    else
      var r := PadStart([fill] + s, width, fill);
      assert Repeat(fill, width - |s| - 1) + ([fill] + s) == Repeat(fill, width - |s|) + s;
      r
  }

  /** `b.toString(16).padStart(2, '0')`: two digits, high nibble first,
      bytes below 16 padded with a leading zero. */
  function ByteToHex(b: Byte): (s: string)
    ensures s == [HexDigit(b / 16), HexDigit(b % 16)]
  {
    PaddedHexOfByte(b);
    PadStart(ToHex(b), 2, '0')
  }

  lemma PaddedHexOfByte(b: Byte)
    ensures PadStart(ToHex(b), 2, '0') == [HexDigit(b / 16), HexDigit(b % 16)]
  {
    if b < 16 {
      assert ToHex(b) == [HexDigit(b)];
      assert Repeat('0', 1) == ['0'];
    } else {
      assert ToHex(b) == ToHex(b / 16) + [HexDigit(b % 16)];
      assert ToHex(b / 16) == [HexDigit(b / 16)];
    }
  }

  /** `hashArray.map(ByteToHex).join('')`. */
  function HexEncode(bytes: seq<Byte>): (s: string)
    ensures |s| == 2 * |bytes|
  {
    if bytes == [] then "" else ByteToHex(bytes[0]) + HexEncode(bytes[1..])
  }

  /** Byte order is kept: byte `i` becomes characters `2i` and `2i + 1`,
      high nibble first. */
  lemma {:induction false} HexEncodeAt(bytes: seq<Byte>, i: nat)
    requires i < |bytes|
    ensures HexEncode(bytes)[2 * i] == HexDigit(bytes[i] / 16)
    ensures HexEncode(bytes)[2 * i + 1] == HexDigit(bytes[i] % 16)
  {
    var rest := HexEncode(bytes[1..]);
    assert HexEncode(bytes) == ByteToHex(bytes[0]) + rest;
    if i > 0 {
      HexEncodeAt(bytes[1..], i - 1);
      assert bytes[1..][i - 1] == bytes[i];
      var k := 2 * (i - 1);
      assert 2 * i == k + 2;
      assert HexEncode(bytes)[k + 2] == rest[k];
      assert HexEncode(bytes)[k + 3] == rest[k + 1];
    }
  }

  /** Every character of the encoding is one of `0-9a-f`. */
  lemma {:induction false} HexEncodeIsLowerHex(bytes: seq<Byte>)
    ensures forall j :: 0 <= j < |HexEncode(bytes)| ==> IsLowerHex(HexEncode(bytes)[j])
  {
    if bytes != [] {
      HexEncodeIsLowerHex(bytes[1..]);
      var rest := HexEncode(bytes[1..]);
      var head := ByteToHex(bytes[0]);
      assert HexEncode(bytes) == head + rest;
      forall j | 0 <= j < |HexEncode(bytes)|
        ensures IsLowerHex(HexEncode(bytes)[j])
      {
        if j >= 2 {
          assert HexEncode(bytes)[j] == rest[j - 2];
        }
      }
    }
  }

  /** The value of a lowercase hex digit (the inverse of HexDigit). */
  function HexValue(c: char): (n: nat)
    requires IsLowerHex(c)
    ensures n < 16 && HexDigit(n) == c
  {
    if '0' <= c <= '9' then c as int - '0' as int else c as int - 'a' as int + 10
  }

  lemma HexValueOfDigit(n: nat)
    requires n < 16
    ensures HexValue(HexDigit(n)) == n
  {
  }

  lemma NibbleSplit(hi: nat, lo: nat)
    requires hi < 16 && lo < 16
    ensures (hi * 16 + lo) / 16 == hi && (hi * 16 + lo) % 16 == lo
  {
  }

  /** Reads lowercase hex text back into bytes; fails on odd length or on a
      character outside 0-9a-f. */
  function HexDecode(s: string): (r: Option<seq<Byte>>)
    ensures r.Some? ==> |r.value| * 2 == |s|
  {
    if s == [] then Some([])
    else if |s| < 2 || !IsLowerHex(s[0]) || !IsLowerHex(s[1]) then None
    else match HexDecode(s[2..])
      case None => None
      case Some(rest) => Some([HexValue(s[0]) * 16 + HexValue(s[1])] + rest)
  }

  /** Decoding the hex text of bytes recovers them. */
  lemma {:induction false} HexRoundTrip(bytes: seq<Byte>)
    ensures HexDecode(HexEncode(bytes)) == Some(bytes)
  {
    if bytes != [] {
      var s := HexEncode(bytes);
      var b := bytes[0];
      assert s == ByteToHex(b) + HexEncode(bytes[1..]);
      assert s[2..] == HexEncode(bytes[1..]);
      HexRoundTrip(bytes[1..]);
      assert s[0] == HexDigit(b / 16) && s[1] == HexDigit(b % 16);
      HexValueOfDigit(b / 16);
      HexValueOfDigit(b % 16);
      assert HexValue(s[0]) * 16 + HexValue(s[1]) == b;
      assert [b] + bytes[1..] == bytes;
    }
  }

  /** Only the hex text of some bytes decodes: decoding then encoding gives
      back the text. */
  lemma {:induction false} HexDecodeSound(s: string)
    requires HexDecode(s).Some?
    ensures HexEncode(HexDecode(s).value) == s
  {
    if s != [] {
      var hi, lo := HexValue(s[0]), HexValue(s[1]);
      var rest := HexDecode(s[2..]).value;
      var bytes := HexDecode(s).value;
      assert bytes == [hi * 16 + lo] + rest;
      HexDecodeSound(s[2..]);
      NibbleSplit(hi, lo);
      assert bytes[1..] == rest;
      assert HexEncode(bytes) == ByteToHex(bytes[0]) + HexEncode(rest);
      assert ByteToHex(bytes[0]) == [s[0], s[1]];
      assert s == [s[0], s[1]] + s[2..];
    }
  }

  /** Different digests never render to the same hex text. */
  lemma HexEncodeInjective(a: seq<Byte>, b: seq<Byte>)
    requires HexEncode(a) == HexEncode(b)
    ensures a == b
  {
    HexRoundTrip(a);
    HexRoundTrip(b);
  }

  /** `generateHash`: the lowercase hex text of the digest of the serialised
      data. */
  function GenerateHash<T>(data: T, serialise: T -> seq<Byte>, digest: seq<Byte> -> seq<Byte>): (hash: string)
    ensures |hash| == 2 * |digest(serialise(data))|
    ensures HexDecode(hash) == Some(digest(serialise(data)))
  {
    HexRoundTrip(digest(serialise(data)));
    HexEncode(digest(serialise(data)))
  }

  /** A 32-byte (SHA-256) digest gives 64 hex characters. */
  lemma HashOf32ByteDigest<T>(data: T, serialise: T -> seq<Byte>, digest: seq<Byte> -> seq<Byte>)
    requires |digest(serialise(data))| == 32
    ensures |GenerateHash(data, serialise, digest)| == 64
  {
  }

  /** Equal serialisations give equal hashes, and equal hashes mean equal
      digests: the hex step neither adds nor loses information. */
  lemma HashDeterministic<T>(a: T, b: T, serialise: T -> seq<Byte>, digest: seq<Byte> -> seq<Byte>)
    ensures serialise(a) == serialise(b) ==> GenerateHash(a, serialise, digest) == GenerateHash(b, serialise, digest)
    ensures GenerateHash(a, serialise, digest) == GenerateHash(b, serialise, digest) ==>
      digest(serialise(a)) == digest(serialise(b))
  {
    if GenerateHash(a, serialise, digest) == GenerateHash(b, serialise, digest) {
      HexEncodeInjective(digest(serialise(a)), digest(serialise(b)));
    }
  }

  const CertificatePrefix := "CERT-"

  datatype Ledger = Ledger(network: string, status: string)

  datatype Certificate<P, R> = Certificate(
    person: P,
    relations: R,
    timestamp: string,
    certificateId: string,
    blockchain: Ledger
  )

  /** `generateCertificateData`: the inputs unchanged, the ISO clock text,
      "CERT-" followed by the millisecond clock, and the fixed ledger label.
      The two clock reads of the source are two parameters. */
  function GenerateCertificateData<P, R>(person: P, relations: R, isoNow: string, nowMs: int): (c: Certificate<P, R>)
    ensures c.person == person && c.relations == relations && c.timestamp == isoNow
    ensures |c.certificateId| > |CertificatePrefix|
    ensures c.certificateId[..|CertificatePrefix|] == CertificatePrefix
    ensures c.certificateId[|CertificatePrefix|..] == IntToText(nowMs)
    ensures c.blockchain == Ledger("Genealogy Testnet", "Validated")
  {
    Certificate(person, relations, isoNow, CertificatePrefix + IntToText(nowMs), Ledger("Genealogy Testnet", "Validated"))
  }

  /** Certificates made at different clock values have different identifiers. */
  lemma CertificateIdsDistinct<P, R>(p1: P, r1: R, iso1: string, t1: int, p2: P, r2: R, iso2: string, t2: int)
    requires t1 != t2
    ensures GenerateCertificateData(p1, r1, iso1, t1).certificateId != GenerateCertificateData(p2, r2, iso2, t2).certificateId
  {
    var c1 := GenerateCertificateData(p1, r1, iso1, t1);
    var c2 := GenerateCertificateData(p2, r2, iso2, t2);
    if c1.certificateId == c2.certificateId {
      assert c1.certificateId[|CertificatePrefix|..] == c2.certificateId[|CertificatePrefix|..];
      IntToTextInjective(t1, t2);
    }
  }
}
