/** The stored password format "<hash>.<salt>" (server/auth.ts): a 64-byte scrypt key and a
    16-byte random salt, both written as lower-case hex. scrypt itself is not modelled: it is a
    function parameter of type `Kdf`, and the random salt is a parameter too. */
module Password {
  import opened Common

  newtype byte = x: int | 0 <= x < 256

  /** A 64-byte derived key: what `scrypt(password, salt, 64)` yields. */
  type Key = k: seq<byte> | |k| == 64 witness seq(64, _ => 0)

  /** scrypt with a 64-byte output, as a function of the password and the salt string. */
  type Kdf = (string, string) -> Key

  /** The separator between hash and salt. */
  const Separator: char := '.'

  predicate IsHexDigit(c: char) {
    '0' <= c <= '9' || 'a' <= c <= 'f' || 'A' <= c <= 'F'
  }

  /** The lower-case hex digit of a nibble. */
  function HexChar(n: int): (c: char)
    requires 0 <= n < 16
    ensures IsHexDigit(c) && c != Separator
  {
    if n < 10 then ('0' as int + n) as char else ('a' as int + n - 10) as char
  }

  /** The value of a hex digit of either case; `None` for any other character. */
  function HexValue(c: char): (r: Option<int>)
    ensures r.Some? <==> IsHexDigit(c)
    ensures r.Some? ==> 0 <= r.value < 16
  {
    if '0' <= c <= '9' then Some(c as int - '0' as int)
    else if 'a' <= c <= 'f' then Some(c as int - 'a' as int + 10)
    else if 'A' <= c <= 'F' then Some(c as int - 'A' as int + 10)
    else None
  }

  /** `buffer.toString("hex")`: two lower-case digits per byte, high nibble first. */
  function Hex(b: seq<byte>): (r: string)
    ensures |r| == 2 * |b|
    ensures forall i :: 0 <= i < |r| ==> IsHexDigit(r[i]) && r[i] != Separator
  {
    if b == [] then ""
    else [HexChar(b[0] as int / 16), HexChar(b[0] as int % 16)] + Hex(b[1..])
  }

  /** `Buffer.from(s, "hex")`: decodes digit pairs from the start and stops at the first pair
      that is not two hex digits; a trailing odd digit is dropped. */
  function HexDecode(s: string): (r: seq<byte>)
    ensures |r| <= |s| / 2
  {
    if |s| < 2 then []
    else
      match (HexValue(s[0]), HexValue(s[1]))
      case (Some(hi), Some(lo)) => [(hi * 16 + lo) as byte] + HexDecode(s[2..])
      case _ => []
  }

  /** Decoding what `Hex` wrote gives back the bytes. */
  lemma {:induction false} HexRoundTrip(b: seq<byte>)
    ensures HexDecode(Hex(b)) == b
  {
    if b != [] {
      var s := Hex(b);
      assert s[2..] == Hex(b[1..]);
      HexRoundTrip(b[1..]);
      assert HexValue(s[0]) == Some(b[0] as int / 16);
      assert HexValue(s[1]) == Some(b[0] as int % 16);
    }
  }

  /** `s.split(sep)` for a one-character separator: the pieces between separators, in order;
      there is always at least one piece. */
  function Split(s: string, sep: char): (r: seq<string>)
    ensures |r| >= 1
    ensures |r| == 1 <==> sep !in s
    ensures forall i :: 0 <= i < |r| ==> sep !in r[i]
  {
    if s == [] then [""]
    else
      var rest := Split(s[1..], sep);
      if s[0] == sep then [""] + rest
      else [[s[0]] + rest[0]] + rest[1..]
  }

  /** A string without the separator splits into itself. */
  lemma {:induction false} SplitWhole(s: string, sep: char)
    requires sep !in s
    ensures Split(s, sep) == [s]
  {
    if s != [] {
      SplitWhole(s[1..], sep);
      assert [s[0]] + s[1..] == s;
    }
  }

  /** A separator-free prefix followed by the separator is split off as the first piece. */
  lemma {:induction false} SplitFirst(a: string, b: string, sep: char)
    requires sep !in a
    ensures Split(a + [sep] + b, sep) == [a] + Split(b, sep)
  {
    if a != [] {
      assert (a + [sep] + b)[1..] == a[1..] + [sep] + b;
      SplitFirst(a[1..], b, sep);
      assert [a[0]] + a[1..] == a;
    } else {
      assert (a + [sep] + b)[1..] == b;
    }
  }

  /** `hashPassword`: the hex scrypt key of the password under the hex salt, a dot, and the hex
      salt. Splitting on the dot gives back the two parts: 128 hex digits and 32 hex digits. */
  function HashPassword(scrypt: Kdf, password: string, salt: seq<byte>): (r: string)
    requires |salt| == 16
    ensures |r| == 128 + 1 + 32
    ensures Split(r, Separator) == [Hex(scrypt(password, Hex(salt))), Hex(salt)]
    ensures |Hex(salt)| == 32 && |Hex(scrypt(password, Hex(salt)))| == 128
  {
    var saltHex := Hex(salt);
    var hashHex := Hex(scrypt(password, saltHex));
    SplitFirst(hashHex, saltHex, Separator);
    SplitWhole(saltHex, Separator);
    hashHex + [Separator] + saltHex
  }

  /** What `comparePasswords` throws: a stored string without a dot leaves the salt undefined
      and scrypt rejects it; `timingSafeEqual` rejects buffers of different lengths. */
  datatype CompareError = SaltMissing | LengthMismatch

  /** `comparePasswords`: split the stored string on dots, decode the first piece as hex, derive
      a key from the supplied password and the second piece, and compare the two buffers. */
  function ComparePasswords(scrypt: Kdf, supplied: string, stored: string): (r: Result<bool, CompareError>)
    ensures r == Err(SaltMissing) <==> Separator !in stored
    ensures r == Err(LengthMismatch) <==> Separator in stored && |HexDecode(Split(stored, Separator)[0])| != 64
    ensures r.Ok? ==> (r.value <==> HexDecode(Split(stored, Separator)[0]) == scrypt(supplied, Split(stored, Separator)[1]))
  {
    var parts := Split(stored, Separator);
    if |parts| < 2 then Err(SaltMissing)
    else
      var hashed := HexDecode(parts[0]);
      var derived := scrypt(supplied, parts[1]);
      if |hashed| != |derived| then Err(LengthMismatch)
      else Ok(hashed == derived)
  }

  /** The round trip: a stored hash accepts exactly the passwords whose key under the same salt
      equals the original's; in particular it accepts the original password. */
  lemma CompareHashed(scrypt: Kdf, original: string, supplied: string, salt: seq<byte>)
    requires |salt| == 16
    ensures ComparePasswords(scrypt, supplied, HashPassword(scrypt, original, salt))
            == Ok(scrypt(supplied, Hex(salt)) == scrypt(original, Hex(salt)))
    ensures ComparePasswords(scrypt, original, HashPassword(scrypt, original, salt)) == Ok(true)
  {
    var stored := HashPassword(scrypt, original, salt);
    HexRoundTrip(scrypt(original, Hex(salt)));
    assert Split(stored, Separator)[0] == Hex(scrypt(original, Hex(salt)));
  }
}
