/** Password hashing: the SHA-256 digest of the UTF-8 encoded password,
    rendered byte by byte as two lower-case hexadecimal digits (Base16,
    section 8 of RFC 4648), and verification by plain string equality.
    The encoder and the digest (FIPS 180-4) are foreign code and stay
    abstract: a `Hasher` carries them. */
module Crypto {
  import opened Text

  type Byte = b: int | 0 <= b < 256

  /** `new TextEncoder().encode` followed by `crypto.subtle.digest('SHA-256', ...)`. */
  datatype Hasher = Hasher(encode: string -> seq<Byte>, digest: seq<Byte> -> seq<Byte>)

  /** A lower-case hexadecimal digit. */
  predicate IsHexChar(ch: char) {
    '0' <= ch <= '9' || 'a' <= ch <= 'f'
  }

  /** The digit of a nibble, as in "0123456789abcdef". */
  function HexDigit(d: nat): (ch: char)
    requires d < 16
    ensures IsHexChar(ch)
  {
    if d < 10 then ('0' as int + d) as char else ('a' as int + d - 10) as char
  }

  /** `n.toString(16)`: the shortest lower-case base-16 rendering. */
  function ToBase16(n: nat): (s: string)
    ensures 1 <= |s|
    ensures n < 16 ==> s == [HexDigit(n)]
  {
    if n < 16 then [HexDigit(n)] else ToBase16(n / 16) + [HexDigit(n % 16)]
  }

  function Repeat(ch: char, n: nat): (r: string)
    ensures |r| == n && forall i :: 0 <= i < n ==> r[i] == ch
  {
    if n == 0 then "" else Repeat(ch, n - 1) + [ch]
  }

  /** `s.padStart(width, fill)` */
  function PadStart(s: string, width: nat, fill: char): string {
    if |s| >= width then s else Repeat(fill, width - |s|) + s
  }

  /** `b.toString(16).padStart(2, '0')`: exactly the high and the low nibble,
      zero-padded. */
  function ByteHex(b: Byte): (r: string)
    ensures r == [HexDigit(b / 16), HexDigit(b % 16)]
  {
    var digits := ToBase16(b);
    assert b >= 16 ==> ToBase16(b / 16) == [HexDigit(b / 16)];
    assert HexDigit(0) == '0';
    PadStart(digits, 2, '0')
  }

  /** `bytes.map(b => b.toString(16).padStart(2, '0')).join('')` */
  function ToHex(bytes: seq<Byte>): (h: string)
    ensures |h| == 2 * |bytes|
  {
    if bytes == [] then "" else ToHex(bytes[..|bytes| - 1]) + ByteHex(bytes[|bytes| - 1])
  }

  /** Byte `i` of the digest sits at characters `2i` and `2i+1`, high nibble first. */
  lemma {:induction false} ToHexAt(bytes: seq<Byte>, i: nat)
    requires i < |bytes|
    ensures ToHex(bytes)[2 * i] == HexDigit(bytes[i] / 16)
    ensures ToHex(bytes)[2 * i + 1] == HexDigit(bytes[i] % 16)
  {
    var n := |bytes| - 1;
    if i < n {
      ToHexAt(bytes[..n], i);
    }
  }

  predicate IsLowerHex(s: string) {
    forall i :: 0 <= i < |s| ==> IsHexChar(s[i])
  }

  /** The rendering uses lower-case hexadecimal digits only. */
  lemma ToHexLowerCase(bytes: seq<Byte>)
    ensures IsLowerHex(ToHex(bytes))
  {
    var h := ToHex(bytes);
    forall k | 0 <= k < |h| ensures IsHexChar(h[k]) {
      ToHexAt(bytes, k / 2);
    }
  }

  /** The inverse of `HexDigit` (any other character reads as zero). */
  function HexValue(ch: char): (d: nat)
    ensures d < 16
    ensures IsHexChar(ch) ==> HexDigit(d) == ch
  {
    if '0' <= ch <= '9' then ch as int - '0' as int
    else if 'a' <= ch <= 'f' then ch as int - 'a' as int + 10
    else 0
  }

  lemma HexDigitValue(d: nat)
    requires d < 16
    ensures HexValue(HexDigit(d)) == d
  {
  }

  /** Reads a hex rendering back into bytes, two characters per byte. */
  function FromHex(h: string): (bytes: seq<Byte>)
    ensures |bytes| == |h| / 2
  {
    if |h| < 2 then []
    else FromHex(h[..|h| - 2]) + [PairValue(h[|h| - 2], h[|h| - 1])]
  }

  /** The byte written as a high and a low hex digit. */
  function PairValue(high: char, low: char): Byte {
    16 * HexValue(high) + HexValue(low)
  }

  /** Reading the rendering back gives the digest: the rendering loses nothing. */
  lemma {:induction false} FromToHex(bytes: seq<Byte>)
    ensures FromHex(ToHex(bytes)) == bytes
  {
    if bytes != [] {
      var n := |bytes| - 1;
      var b := bytes[n];
      var front := ToHex(bytes[..n]);
      var hi, lo := b / 16, b % 16;
      ToHexLast(bytes);
      FromToHex(bytes[..n]);
      FromHexStep(front, hi, lo);
      assert bytes == bytes[..n] + [16 * hi + lo];
    }
  }

  lemma ToHexLast(bytes: seq<Byte>)
    requires bytes != []
    ensures var b := bytes[|bytes| - 1];
      ToHex(bytes) == ToHex(bytes[..|bytes| - 1]) + [HexDigit(b / 16), HexDigit(b % 16)]
  {
  }

  /** Reading one more rendered byte appends it. */
  lemma FromHexStep(front: string, hi: nat, lo: nat)
    requires |front| % 2 == 0 && hi < 16 && lo < 16
    ensures FromHex(front + [HexDigit(hi), HexDigit(lo)]) == FromHex(front) + [16 * hi + lo]
  {
    var h := front + [HexDigit(hi), HexDigit(lo)];
    assert h[..|h| - 2] == front;
    HexDigitValue(hi);
    HexDigitValue(lo);
    assert PairValue(HexDigit(hi), HexDigit(lo)) == 16 * hi + lo;
  }

  /** Two digests render the same exactly when they are the same. */
  lemma ToHexInjective(a: seq<Byte>, b: seq<Byte>)
    ensures ToHex(a) == ToHex(b) <==> a == b
  {
    if ToHex(a) == ToHex(b) {
      FromToHex(a);
      FromToHex(b);
    }
  }

  /** `hashPassword(password)` */
  function HashPassword(h: Hasher, password: string): (hex: string)
    ensures |hex| == 2 * |h.digest(h.encode(password))|
  {
    ToHex(h.digest(h.encode(password)))
  }

  /** A SHA-256 digest has 32 bytes, so the stored form has 64 characters. */
  lemma HashPasswordLength(h: Hasher, password: string)
    requires |h.digest(h.encode(password))| == 32
    ensures |HashPassword(h, password)| == 64
  {
  }

  /** `verifyPassword(password, hashedPassword)`: recompute and compare exactly. */
  function VerifyPassword(h: Hasher, password: string, hashed: string): bool {
    HashPassword(h, password) == hashed
  }

  /** Hashing is deterministic, so a password always verifies against its own hash. */
  lemma VerifyOwnHash(h: Hasher, password: string)
    ensures VerifyPassword(h, password, HashPassword(h, password))
  {
  }

  /** A password verifies against another password's hash exactly when the
      two digests collide. */
  lemma VerifyIffSameDigest(h: Hasher, password: string, other: string)
    ensures VerifyPassword(h, password, HashPassword(h, other))
        <==> h.digest(h.encode(password)) == h.digest(h.encode(other))
  {
    ToHexInjective(h.digest(h.encode(password)), h.digest(h.encode(other)));
  }

  /** A stored hash holding any character outside lower-case hex (an
      upper-case digit, say) never verifies. */
  lemma NonLowerHexNeverVerifies(h: Hasher, password: string, hashed: string)
    requires !IsLowerHex(hashed)
    ensures !VerifyPassword(h, password, hashed)
  {
    ToHexLowerCase(h.digest(h.encode(password)));
  }

  /** With a 32-byte digest, a stored hash of any length but 64 never verifies. */
  lemma WrongLengthNeverVerifies(h: Hasher, password: string, hashed: string)
    requires |h.digest(h.encode(password))| == 32
    requires |hashed| != 64
    ensures !VerifyPassword(h, password, hashed)
  {
  }
}
