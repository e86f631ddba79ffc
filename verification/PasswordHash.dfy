/** PBKDF2 password strings: printing, checking and validating them, with unpadded base64
    (sections 3.2 and 4 of RFC 4648). */
module PasswordHash {
  import opened Wrappers
  import opened Text

  const PREFIX := "pbkdf2-sha256"
  const MAX_HASH: nat := 4096
  const MAX_ITERATIONS: nat := 1000000
  const MIN_SALT: nat := 16
  const MAX_SALT: nat := 64
  const MAX_KEY: nat := 64
  const MAX_PART: nat := 128
  const DIGEST: nat := 64
  const MAX_PASSWORD: nat := 1024

  datatype Fault =
    | TooManyIterations | SaltTooShort | SaltTooLong | Missing | LineBreak | TooLong | LegacyRefused
    | PlainEmpty | BadDigest | BadFormat | BadIterations | SaltPartTooLong | KeyPartTooLong | BadSalt | BadKey

  /** The cryptography: key derivation, and the SHA-256 digest in hexadecimal. */
  datatype Crypto = Crypto(derive: (string, string, nat) -> string, digest: string -> string)

  ghost predicate Derives32(c: Crypto) {
    forall p, s, n :: |c.derive(p, s, n)| == 32 && Bytes(c.derive(p, s, n))
  }

  // ---------- base64 ----------

  function Digit(n: nat): (c: char)
    requires n < 64
    ensures DigitValue(c) == n
  {
    if n < 26 then (n + 65) as char
    else if n < 52 then (n + 71) as char
    else if n < 62 then (n - 4) as char
    else if n == 62 then '+' else '/'
  }

  function DigitValue(c: char): (v: int)
    ensures -1 <= v < 64
  {
    if 'A' <= c <= 'Z' then c as int - 65
    else if 'a' <= c <= 'z' then c as int - 71
    else if '0' <= c <= '9' then c as int + 4
    else if c == '+' then 62 else if c == '/' then 63 else -1
  }

  /** A byte's value; every `char` stands for a byte. */
  function Octet(c: char): (n: nat)
    ensures n < 256
  {
    c as int % 256
  }

  // Three bytes `a`, `b`, `c` are four digits.

  function Digit0(a: nat): (n: nat)
    requires a < 256
    ensures n < 64
  {
    a / 4
  }

  function Digit1(a: nat, b: nat): (n: nat)
    requires a < 256 && b < 256
    ensures n < 64
  {
    a % 4 * 16 + b / 16
  }

  function Digit2(b: nat, c: nat): (n: nat)
    requires b < 256 && c < 256
    ensures n < 64
  {
    b % 16 * 4 + c / 64
  }

  function Digit3(c: nat): (n: nat)
    requires c < 256
    ensures n < 64
  {
    c % 64
  }

  function Byte0(d0: int, d1: int): (n: nat)
    requires 0 <= d0 < 64 && 0 <= d1 < 64
    ensures n < 256
  {
    d0 * 4 + d1 / 16
  }

  function Byte1(d1: int, d2: int): (n: nat)
    requires 0 <= d1 < 64 && 0 <= d2 < 64
    ensures n < 256
  {
    d1 % 16 * 16 + d2 / 4
  }

  function Byte2(d2: int, d3: int): (n: nat)
    requires 0 <= d2 < 64 && 0 <= d3 < 64
    ensures n < 256
  {
    d2 % 4 * 64 + d3
  }

  function EncodeBase64(s: string): string {
    if |s| == 0 then ""
    else if |s| == 1 then [Digit(Digit0(Octet(s[0]))), Digit(Digit1(Octet(s[0]), 0))]
    else if |s| == 2 then
      [Digit(Digit0(Octet(s[0]))), Digit(Digit1(Octet(s[0]), Octet(s[1]))), Digit(Digit2(Octet(s[1]), 0))]
    else
      [Digit(Digit0(Octet(s[0]))), Digit(Digit1(Octet(s[0]), Octet(s[1]))), Digit(Digit2(Octet(s[1]), Octet(s[2]))), Digit(Digit3(Octet(s[2])))]
      + EncodeBase64(s[3..])
  }

  function WithoutBreaks(s: string): string {
    if s == "" then "" else (if s[0] == '\r' || s[0] == '\n' then "" else [s[0]]) + WithoutBreaks(s[1..])
  }

  /** Bits beyond the last whole byte are ignored. */
  function DecodeDigits(s: string): Option<string> {
    if |s| == 0 then Some("")
    else if |s| == 1 || DigitValue(s[0]) < 0 || DigitValue(s[1]) < 0 then None
    else
      var first := Byte0(DigitValue(s[0]), DigitValue(s[1])) as char;
      if |s| == 2 then Some([first])
      else if DigitValue(s[2]) < 0 then None
      else
        var second := Byte1(DigitValue(s[1]), DigitValue(s[2])) as char;
        if |s| == 3 then Some([first, second])
        else if DigitValue(s[3]) < 0 || DecodeDigits(s[4..]).None? then None
        else Some([first, second, Byte2(DigitValue(s[2]), DigitValue(s[3])) as char] + DecodeDigits(s[4..]).value)
  }

  function DecodeBase64(s: string): Option<string> {
    DecodeDigits(WithoutBreaks(s))
  }

  // ---------- decimal numbers ----------

  function Itoa(n: nat): string {
    if n < 10 then [(n + 48) as char] else Itoa(n / 10) + [(n % 10 + 48) as char]
  }

  predicate Decimal(s: string) {
    s != "" && forall i | 0 <= i < |s| :: '0' <= s[i] <= '9'
  }

  function Value(s: string): (n: nat)
    requires forall i | 0 <= i < |s| :: '0' <= s[i] <= '9'
  {
    if s == "" then 0 else Value(s[..|s| - 1]) * 10 + (s[|s| - 1] as int - 48)
  }

  /** Go's `strconv.Atoi` on a 64-bit machine. */
  function Atoi(s: string): Option<int> {
    var signed := s != "" && (s[0] == '+' || s[0] == '-');
    var digits := if signed then s[1..] else s;
    if !Decimal(digits) then None
    else
      var v := if signed && s[0] == '-' then -(Value(digits) as int) else Value(digits) as int;
      if -0x8000_0000_0000_0000 <= v <= 0x7FFF_FFFF_FFFF_FFFF then Some(v) else None
  }

  // ---------- password strings ----------

  function HashPassword(c: Crypto, password: string, salt: string, requested: int): Result<string, Fault> {
    var iterations := if requested <= 0 then 210000 else requested;
    if iterations > MAX_ITERATIONS then Err(TooManyIterations)
    else if |salt| < MIN_SALT then Err(SaltTooShort)
    else if |salt| > MAX_SALT then Err(SaltTooLong)
    else Ok(Join([PREFIX, Itoa(iterations), EncodeBase64(salt), EncodeBase64(c.derive(password, salt, iterations))], '$'))
  }

  datatype Parts = Parts(iterations: nat, salt: string, key: string)

  /** The part of the checks that verification and validation share. */
  function ReadParts(encoded: string): Result<Parts, Fault> {
    var parts := Split(encoded, '$');
    if |parts| != 4 || parts[0] != PREFIX then Err(BadFormat)
    else
      var iterations := Atoi(parts[1]);
      if iterations.None? || iterations.value <= 0 || iterations.value > MAX_ITERATIONS then Err(BadIterations)
      else if |parts[2]| > MAX_PART then Err(SaltPartTooLong)
      else if |parts[3]| > MAX_PART then Err(KeyPartTooLong)
      else
        var salt := DecodeBase64(parts[2]);
        if salt.None? || |salt.value| < MIN_SALT || |salt.value| > MAX_SALT then Err(BadSalt)
        else
          var key := DecodeBase64(parts[3]);
          if key.None? || |key.value| == 0 || |key.value| > MAX_KEY then Err(BadKey)
          else Ok(Parts(iterations.value, salt.value, key.value))
  }

  predicate VerifyPassword(c: Crypto, password: string, raw: string) {
    var encoded := TrimSpace(raw);
    && |password| <= MAX_PASSWORD
    && encoded != "" && |encoded| <= MAX_HASH
    && if HasPrefix(encoded, "plain:") then password == encoded[6..]
       else if HasPrefix(encoded, "sha256:") then |encoded[7..]| == DIGEST && c.digest(password) == encoded[7..]
       else
         var parts := ReadParts(encoded);
         parts.Ok? && c.derive(password, parts.value.salt, parts.value.iterations) == parts.value.key
  }

  /** No fault means the string is accepted. */
  function ValidatePasswordHash(raw: string, allowLegacy: bool): Option<Fault> {
    var encoded := TrimSpace(raw);
    if encoded == "" then Some(Missing)
    else if '\r' in encoded || '\n' in encoded then Some(LineBreak)
    else if |encoded| > MAX_HASH then Some(TooLong)
    else if HasPrefix(encoded, "plain:") then
      if !allowLegacy then Some(LegacyRefused) else if |encoded| == 6 then Some(PlainEmpty) else None
    else if HasPrefix(encoded, "sha256:") then
      if !allowLegacy then Some(LegacyRefused)
      else if |encoded[7..]| != DIGEST || (exists i :: 7 <= i < |encoded| && HexValue(encoded[i]) < 0) then Some(BadDigest)
      else None
    else
      var parts := ReadParts(encoded);
      if parts.Err? then Some(parts.error) else None
  }

  // ---------- base64 and decimal round trips ----------

  lemma {:induction false} Base64RoundTrip(s: string)
    requires Bytes(s)
    ensures DecodeDigits(EncodeBase64(s)) == Some(s)
  {
    hide Digit, DigitValue, Digit0, Digit1, Digit2, Digit3, Byte0, Byte1, Byte2;
    if |s| >= 3 {
      Base64RoundTrip(s[3..]);
      DigitsOf(Octet(s[0]), Octet(s[1]), Octet(s[2]));
      assert EncodeBase64(s)[4..] == EncodeBase64(s[3..]);
      assert [s[0], s[1], s[2]] + s[3..] == s;
    } else if |s| == 2 {
      DigitsOf(Octet(s[0]), Octet(s[1]), 0);
      assert s == [s[0], s[1]];
    } else if |s| == 1 {
      DigitsOf(Octet(s[0]), 0, 0);
      assert s == [s[0]];
    }
  }

  lemma {:induction false} DigitsOf(a: nat, b: nat, c: nat)
    requires a < 256 && b < 256 && c < 256
    ensures Byte0(Digit0(a), Digit1(a, b)) == a
    ensures Byte1(Digit1(a, b), Digit2(b, c)) == b
    ensures Byte2(Digit2(b, c), Digit3(c)) == c
  {
    assert (a % 4 * 16 + b / 16) / 16 == a % 4;
    assert (a % 4 * 16 + b / 16) % 16 == b / 16;
    assert (b % 16 * 4 + c / 64) / 4 == b % 16;
    assert (b % 16 * 4 + c / 64) % 4 == c / 64;
  }

  predicate Printed(s: string) {
    forall i | 0 <= i < |s| :: DigitValue(s[i]) >= 0
  }

  lemma {:induction false} EncodedText(s: string)
    ensures Printed(EncodeBase64(s)) && 3 * |EncodeBase64(s)| <= 4 * |s| + 4 && |EncodeBase64(s)| >= |s|
    ensures WithoutBreaks(EncodeBase64(s)) == EncodeBase64(s)
  {
    EncodedDigits(s);
    NoBreaks(EncodeBase64(s));
  }

  lemma {:induction false} EncodedDigits(s: string)
    ensures Printed(EncodeBase64(s)) && 3 * |EncodeBase64(s)| <= 4 * |s| + 4 && |EncodeBase64(s)| >= |s|
  {
    hide Digit, DigitValue, Digit0, Digit1, Digit2, Digit3;
    if |s| >= 3 {
      EncodedDigits(s[3..]);
    }
  }

  lemma {:induction false} NoBreaks(s: string)
    requires Printed(s)
    ensures WithoutBreaks(s) == s
  {
    if s != "" {
      NoBreaks(s[1..]);
    }
  }

  lemma {:induction false} ItoaRoundTrip(n: nat)
    ensures Decimal(Itoa(n)) && Value(Itoa(n)) == n
  {
    if n < 10 {
      var one := [(n + 48) as char];
      assert Value(one[..0]) == 0;
    } else {
      ItoaRoundTrip(n / 10);
      var s := Itoa(n);
      assert s[..|s| - 1] == Itoa(n / 10);
    }
  }

  function Power10(k: nat): nat {
    if k == 0 then 1 else 10 * Power10(k - 1)
  }

  lemma {:induction false} ItoaLength(n: nat, k: nat)
    requires 0 < k && n < Power10(k)
    ensures |Itoa(n)| <= k
    decreases k
  {
    if n >= 10 {
      assert k > 1;
      ItoaLength(n / 10, k - 1);
    }
  }

  // ---------- main results ----------

  lemma {:induction false} AtoiItoa(n: nat)
    requires n <= MAX_ITERATIONS
    ensures Atoi(Itoa(n)) == Some(n)
  {
    ItoaRoundTrip(n);
    hide Itoa, Value;
  }

  /** The printed string: its four parts, and that nothing in it is trimmed or breaks a line. */
  lemma {:induction false} PrintedString(n: nat, salt: string, key: string)
    requires 0 < n <= MAX_ITERATIONS && Bytes(salt) && Bytes(key)
    requires MIN_SALT <= |salt| <= MAX_SALT && 0 < |key| <= MAX_KEY
    ensures var e := Join([PREFIX, Itoa(n), EncodeBase64(salt), EncodeBase64(key)], '$');
            && TrimSpace(e) == e && e != "" && |e| <= MAX_HASH && '\r' !in e && '\n' !in e
            && !HasPrefix(e, "plain:") && !HasPrefix(e, "sha256:")
            && ReadParts(e) == Ok(Parts(n, salt, key))
  {
    hide EncodeBase64, DecodeDigits, WithoutBreaks, Itoa, Atoi, Value, TrimSpace, Split, DigitValue, Power10, Join, HasPrefix;
    var a, b, c := Itoa(n), EncodeBase64(salt), EncodeBase64(key);
    var parts := [PREFIX, a, b, c];
    EncodedText(salt);
    EncodedText(key);
    Base64RoundTrip(salt);
    Base64RoundTrip(key);
    AtoiItoa(n);
    ItoaRoundTrip(n);
    MillionDigits();
    ItoaLength(n, 7);
    JoinedParts(PREFIX, a, b, c);
    DigitChars(b);
    DigitChars(c);
    forall p | p in parts ensures '$' !in p {}
    SplitJoin(parts, '$');
    var e := PREFIX + (['$'] + (a + (['$'] + (b + (['$'] + c)))));
    assert e[|e| - 1] == c[|c| - 1];
    assert e[0] == 'p' && e[1] == 'b';
    VisibleEnds(e);
    TrimmedIsFixed(e);
    NotLegacy(e);
  }

  lemma {:induction false} NotLegacy(e: string)
    requires |e| > 1 && e[0] == 'p' && e[1] == 'b'
    ensures !HasPrefix(e, "plain:") && !HasPrefix(e, "sha256:")
  {
  }

  lemma {:induction false} MillionDigits()
    ensures MAX_ITERATIONS < Power10(7)
  {
    assert Power10(3) == 1000;
    assert Power10(5) == 100000;
  }

  lemma {:induction false} JoinedParts(p: string, a: string, b: string, c: string)
    ensures Join([p, a, b, c], '$') == p + (['$'] + (a + (['$'] + (b + (['$'] + c)))))
  {
    assert [p, a, b, c][1..] == [a, b, c] && [a, b, c][1..] == [b, c] && [b, c][1..] == [c];
    assert Join([b, c], '$') == b + ['$'] + c;
    assert Join([a, b, c], '$') == a + ['$'] + Join([b, c], '$');
  }

  lemma {:induction false} DigitChars(s: string)
    requires Printed(s)
    ensures forall i | 0 <= i < |s| :: '!' <= s[i] <= '~' && s[i] != '$' && s[i] != '\r' && s[i] != '\n'
  {
  }

  /** Main result: every string the program prints is accepted by validation without legacy formats, and a
      password verifies against it if and only if it is not too long and derives the same key. */
  lemma {:induction false} HashRoundTrip(c: Crypto, password: string, salt: string, requested: int, tried: string)
    requires Derives32(c) && Bytes(salt) && HashPassword(c, password, salt, requested).Ok?
    ensures var e := HashPassword(c, password, salt, requested).value;
            var n := if requested <= 0 then 210000 else requested;
            && ValidatePasswordHash(e, false) == None
            && (VerifyPassword(c, tried, e) <==> |tried| <= MAX_PASSWORD && c.derive(tried, salt, n) == c.derive(password, salt, n))
            && (VerifyPassword(c, password, e) <==> |password| <= MAX_PASSWORD)
  {
    hide EncodeBase64, Itoa, TrimSpace, ReadParts, Join;
    var n := if requested <= 0 then 210000 else requested;
    var key := c.derive(password, salt, n);
    assert |key| == 32 && Bytes(key);
    PrintedString(n, salt, key);
  }

  /** A password of 1025 bytes is hashed, and then does not verify. */
  lemma {:induction false} LongPasswordFails(c: Crypto, salt: string)
    requires Derives32(c) && Bytes(salt) && MIN_SALT <= |salt| <= MAX_SALT
    ensures var password := seq(1025, _ => 'a');
            HashPassword(c, password, salt, 0).Ok? && !VerifyPassword(c, password, HashPassword(c, password, salt, 0).value)
  {
    hide EncodeBase64, Itoa, Join, VerifyPassword;
    HashRoundTrip(c, seq(1025, _ => 'a'), salt, 0, "");
  }

  /** A password string that verifies is also valid, with two exceptions: one that breaks a line
      inside its base64 text, and the legacy string of the empty password. */
  lemma {:induction false} VerifiedIsValid(c: Crypto, password: string, raw: string)
    requires VerifyPassword(c, password, raw)
    requires forall p :: |c.digest(p)| == DIGEST && forall i | 0 <= i < DIGEST :: HexValue(c.digest(p)[i]) >= 0
    ensures ValidatePasswordHash(raw, true) == None <==>
              '\r' !in TrimSpace(raw) && '\n' !in TrimSpace(raw) && TrimSpace(raw) != "plain:"
  {
    hide TrimSpace, ReadParts, HexValue;
    var e := TrimSpace(raw);
    if HasPrefix(e, "plain:") {
      assert |e| == 6 ==> e == "plain:";
    } else if HasPrefix(e, "sha256:") {
      assert e[7..] == c.digest(password);
      forall i | 7 <= i < |e| ensures HexValue(e[i]) >= 0 {
        assert e[i] == e[7..][i - 7];
      }
    }
  }
}
