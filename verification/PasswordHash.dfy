/** Encoded argon2id hashes: what hash writes and verifyPassword reads. The key derivation is any function whose
    result has the length asked for. */
module PasswordHash {
  import opened Prelude
  import opened Scanning

  type Byte = b: nat | b < 256

  // ---- base64, section 4 of RFC 4648, without padding ----

  type Sextet = n: nat | n < 64

  function Character(n: Sextet): char {
    if n < 26 then ('A' as int + n) as char
    else if n < 52 then ('a' as int + n - 26) as char
    else if n < 62 then ('0' as int + n - 52) as char
    else if n == 62 then '+' else '/'
  }

  function SextetOf(c: char): Option<Sextet> {
    if 'A' <= c <= 'Z' then Some(c as int - 'A' as int)
    else if 'a' <= c <= 'z' then Some(c as int - 'a' as int + 26)
    else if '0' <= c <= '9' then Some(c as int - '0' as int + 52)
    else if c == '+' then Some(62)
    else if c == '/' then Some(63)
    else None
  }

  function Encode(bytes: seq<Byte>): string {
    if bytes == [] then ""
    else if |bytes| == 1 then [Character(bytes[0] / 4), Character(bytes[0] % 4 * 16)]
    else if |bytes| == 2 then [Character(bytes[0] / 4), Character(bytes[0] % 4 * 16 + bytes[1] / 16), Character(bytes[1] % 16 * 4)]
    else
      [Character(bytes[0] / 4), Character(bytes[0] % 4 * 16 + bytes[1] / 16),
       Character(bytes[1] % 16 * 4 + bytes[2] / 64), Character(bytes[2] % 64)] + Encode(bytes[3..])
  }

  /** The decoder skips line breaks. */
  function WithoutBreaks(s: string): string {
    if s == "" then ""
    else (if s[0] == '\r' || s[0] == '\n' then "" else [s[0]]) + WithoutBreaks(s[1..])
  }

  function Sextets(s: string): Option<seq<Sextet>> {
    if s == "" then Some([])
    else
      var rest := Sextets(s[1..]);
      if SextetOf(s[0]).None? || rest.None? then None else Some([SextetOf(s[0]).value] + rest.value)
  }

  function FirstByte(a: nat, b: nat): Byte
    requires a < 64 && b < 64
  {
    a * 4 + b / 16
  }

  function SecondByte(b: nat, c: nat): Byte
    requires b < 64 && c < 64
  {
    b % 16 * 16 + c / 4
  }

  function ThirdByte(c: nat, d: nat): Byte
    requires c < 64 && d < 64
  {
    c % 4 * 64 + d
  }

  /** Four sextets make three bytes; two or three at the end make one or two, their spare bits unread; one is an error. */
  function Packed(d: seq<Sextet>): Option<seq<Byte>> {
    if d == [] then Some([])
    else if |d| == 1 then None
    else if |d| == 2 then Some([FirstByte(d[0], d[1])])
    else if |d| == 3 then Some([FirstByte(d[0], d[1]), SecondByte(d[1], d[2])])
    else
      var rest := Packed(d[4..]);
      if rest.None? then None
      else Some([FirstByte(d[0], d[1]), SecondByte(d[1], d[2]), ThirdByte(d[2], d[3])] + rest.value)
  }

  function Decode(s: string): Option<seq<Byte>> {
    var d := Sextets(WithoutBreaks(s));
    if d.None? then None else Packed(d.value)
  }

  lemma CharacterReadsBack(n: Sextet)
    ensures SextetOf(Character(n)) == Some(n)
    ensures Character(n) != '\r' && Character(n) != '\n' && Character(n) != '$'
  {
  }

  function Characters(d: seq<Sextet>): string {
    seq(|d|, i requires 0 <= i < |d| => Character(d[i]))
  }

  lemma {:induction false} CharactersReadBack(d: seq<Sextet>)
    ensures WithoutBreaks(Characters(d)) == Characters(d) && Sextets(Characters(d)) == Some(d)
    decreases |d|
  {
    hide Character, SextetOf;
    if d != [] {
      CharacterReadsBack(d[0]);
      CharactersReadBack(d[1..]);
      assert Characters(d)[1..] == Characters(d[1..]);
      assert d == [d[0]] + d[1..];
      assert Characters(d) == [Character(d[0])] + Characters(d[1..]);
    }
  }

  lemma NoDollarInCharacters(d: seq<Sextet>)
    ensures '$' !in Characters(d)
  {
    hide Character;
    forall i | 0 <= i < |d| ensures Character(d[i]) != '$' { CharacterReadsBack(d[i]); }
  }

  function Unpacked(bytes: seq<Byte>): seq<Sextet> {
    if bytes == [] then []
    else if |bytes| == 1 then [bytes[0] / 4, bytes[0] % 4 * 16]
    else if |bytes| == 2 then [bytes[0] / 4, bytes[0] % 4 * 16 + bytes[1] / 16, bytes[1] % 16 * 4]
    else [bytes[0] / 4, bytes[0] % 4 * 16 + bytes[1] / 16, bytes[1] % 16 * 4 + bytes[2] / 64, bytes[2] % 64] + Unpacked(bytes[3..])
  }

  lemma {:induction false} EncodeIsUnpacked(bytes: seq<Byte>)
    ensures Encode(bytes) == Characters(Unpacked(bytes))
    decreases |bytes|
  {
    if |bytes| >= 3 {
      EncodeIsUnpacked(bytes[3..]);
      var d := Unpacked(bytes);
      assert d[4..] == Unpacked(bytes[3..]);
      assert Characters(d) == Characters(d[..4]) + Characters(d[4..]);
      assert Characters(d[..4]) == Encode(bytes)[..4];
    }
  }

  lemma FirstReadsBack(a: nat, high: nat)
    requires a < 256 && high < 16
    ensures FirstByte(a / 4, a % 4 * 16 + high) == a
  {
    assert (a % 4 * 16 + high) / 16 == a % 4;
  }

  lemma SecondReadsBack(b: nat, low: nat, high: nat)
    requires b < 256 && low < 4 && high < 4
    ensures SecondByte(low * 16 + b / 16, b % 16 * 4 + high) == b
  {
    assert (low * 16 + b / 16) % 16 == b / 16;
    assert (b % 16 * 4 + high) / 4 == b % 16;
  }

  lemma ThirdReadsBack(c: nat, low: nat)
    requires c < 256 && low < 16
    ensures ThirdByte(low * 4 + c / 64, c % 64) == c
  {
    assert (low * 4 + c / 64) % 4 == c / 64;
  }

  lemma {:induction false} PackedUndoesUnpacked(bytes: seq<Byte>)
    ensures Packed(Unpacked(bytes)) == Some(bytes)
    decreases |bytes|
  {
    hide FirstByte, SecondByte, ThirdByte;
    if |bytes| >= 3 {
      PackedUndoesUnpacked(bytes[3..]);
      FirstReadsBack(bytes[0], bytes[1] / 16);
      SecondReadsBack(bytes[1], bytes[0] % 4, bytes[2] / 64);
      ThirdReadsBack(bytes[2], bytes[1] % 16);
      assert Unpacked(bytes)[4..] == Unpacked(bytes[3..]);
      assert bytes == [bytes[0], bytes[1], bytes[2]] + bytes[3..];
    } else if |bytes| == 2 {
      FirstReadsBack(bytes[0], bytes[1] / 16);
      SecondReadsBack(bytes[1], bytes[0] % 4, 0);
      assert bytes == [bytes[0], bytes[1]];
    } else if |bytes| == 1 {
      FirstReadsBack(bytes[0], 0);
      assert bytes == [bytes[0]];
    }
  }

  lemma Base64RoundTrip(bytes: seq<Byte>)
    ensures Decode(Encode(bytes)) == Some(bytes)
    ensures '$' !in Encode(bytes)
  {
    EncodeIsUnpacked(bytes);
    CharactersReadBack(Unpacked(bytes));
    NoDollarInCharacters(Unpacked(bytes));
    hide Encode, Unpacked, Characters;
    PackedUndoesUnpacked(bytes);
  }

  // ---- the encoded hash ----

  const VERSION: nat := 19
  const UINT32: nat := 0x1_0000_0000

  datatype Hasher = Hasher(memory: nat, iterations: nat, parallelism: nat, saltLength: nat, keyLength: nat) {
    predicate Fits() {
      memory < UINT32 && iterations < UINT32 && parallelism < 256 && saltLength < UINT32 && keyLength < UINT32
    }
  }

  /** Missing settings take their defaults. */
  method NewPasswordHasher(memory: nat, iterations: nat, parallelism: nat, saltLength: nat, keyLength: nat) returns (h: Hasher)
    requires Hasher(memory, iterations, parallelism, saltLength, keyLength).Fits()
    ensures h.Fits() && h.memory > 0 && h.iterations > 0 && h.parallelism > 0 && h.saltLength > 0 && h.keyLength > 0
    ensures memory > 0 ==> h.memory == memory
    ensures iterations > 0 ==> h.iterations == iterations
    ensures parallelism > 0 ==> h.parallelism == parallelism
    ensures saltLength > 0 ==> h.saltLength == saltLength
    ensures keyLength > 0 ==> h.keyLength == keyLength
    ensures (memory == 0 ==> h.memory == 65536) && (iterations == 0 ==> h.iterations == 3) && (parallelism == 0 ==> h.parallelism == 2)
    ensures (saltLength == 0 ==> h.saltLength == 16) && (keyLength == 0 ==> h.keyLength == 32)
  {
    h := Hasher(memory, iterations, parallelism, saltLength, keyLength);
    if h.memory == 0 { h := h.(memory := 64 * 1024); }
    if h.iterations == 0 { h := h.(iterations := 3); }
    if h.parallelism == 0 { h := h.(parallelism := 2); }
    if h.saltLength == 0 { h := h.(saltLength := 16); }
    if h.keyLength == 0 { h := h.(keyLength := 32); }
  }

  /** password, salt, iterations, memory, parallelism, key length */
  type Kdf = (seq<Byte>, seq<Byte>, nat, nat, nat, nat) -> seq<Byte>

  ghost predicate GivesLength(kdf: Kdf) {
    forall p, salt, t, m, par, n :: |kdf(p, salt, t, m, par, n)| == n
  }

  function Hash(h: Hasher, kdf: Kdf, salt: seq<Byte>, plain: seq<Byte>): string {
    Encoded(Stored(h.memory, h.iterations, h.parallelism, salt, kdf(plain, salt, h.iterations, h.memory, h.parallelism, h.keyLength)))
  }

  datatype Stored = Stored(memory: nat, iterations: nat, parallelism: nat, salt: seq<Byte>, key: seq<Byte>)

  function Encoded(s: Stored): string {
    "$" + ("argon2id" + ("$" + (VersionPart(VERSION) + ("$" + (CostPart(s) + ("$" + (Encode(s.salt) + ("$" + Encode(s.key)))))))))
  }

  function VersionPart(v: nat): string { "v=" + (Decimal(v) + "") }

  function CostPart(s: Stored): string {
    "m=" + (Decimal(s.memory) + (",t=" + (Decimal(s.iterations) + (",p=" + (Decimal(s.parallelism) + "")))))
  }

  // ---- reading it back ----

  /** strings.Split on one character. */
  function Split(s: string, c: char): (parts: seq<string>)
    ensures parts != []
  {
    if s == "" then [""]
    else if s[0] == c then [""] + Split(s[1..], c)
    else var rest := Split(s[1..], c); [[s[0]] + rest[0]] + rest[1..]
  }

  /** Sscanf with "v=%d"; what follows the number is not looked at. */
  function ScanVersion(s: string): Option<int> {
    var s1 := Literal(s, "v=");
    if s1.None? || ScanInt(s1.value).None? then None else Some(ScanInt(s1.value).value.0)
  }

  /** A literal, then an unsigned number below the limit. */
  function Field(s: string, literal: string, limit: nat): Option<(nat, string)> {
    var rest := Literal(s, literal);
    if rest.None? then None else ScanUint(rest.value, limit)
  }

  /** Sscanf with "m=%d,t=%d,p=%d" into two 32-bit and one 8-bit variables. */
  function ScanCosts(s: string): Option<(nat, nat, nat)> {
    var m := Field(s, "m=", UINT32);
    if m.None? then None
    else
      var t := Field(m.value.1, ",t=", UINT32);
      if t.None? then None
      else
        var p := Field(t.value.1, ",p=", 256);
        if p.None? then None else Some((m.value.0, t.value.0, p.value.0))
  }

  function Read(encoded: string): Option<Stored> {
    var parts := Split(encoded, '$');
    if |parts| != 6 || parts[1] != "argon2id" || ScanVersion(parts[2]) != Some(VERSION as int) then None
    else FromParts(ScanCosts(parts[3]), Decode(parts[4]), Decode(parts[5]))
  }

  function FromParts(costs: Option<(nat, nat, nat)>, salt: Option<seq<Byte>>, key: Option<seq<Byte>>): Option<Stored> {
    if costs.None? || salt.None? || key.None? then None
    else Some(Stored(costs.value.0, costs.value.1, costs.value.2, salt.value, key.value))
  }

  /** The stored text, written out: the cost parameters under their names, then salt and key. */
  lemma EncodedText(s: Stored)
    ensures Encoded(s) == "$argon2id$v=19$m=" + Decimal(s.memory) + ",t=" + Decimal(s.iterations) + ",p=" + Decimal(s.parallelism)
      + "$" + Encode(s.salt) + "$" + Encode(s.key)
  {
    assert Decimal(19) == "19" by { assert Decimal(1) == "1"; }
    hide Encode, Decimal;
    var front := "$" + ("argon2id" + ("$" + ("v=" + ("19" + ""))));
    assert front == "$argon2id$v=19";
    Flat(Decimal(s.memory), Decimal(s.iterations), Decimal(s.parallelism), Encode(s.salt), Encode(s.key));
  }

  lemma Flat(m: string, t: string, p: string, salt: string, key: string)
    ensures
      "$" + ("argon2id" + ("$" + (("v=" + ("19" + "")) + ("$" + (("m=" + (m + (",t=" + (t + (",p=" + (p + "")))))) + ("$" + (salt + ("$" + key))))))))
      == "$argon2id$v=19$m=" + m + ",t=" + t + ",p=" + p + "$" + salt + "$" + key
  {
  }

  /** Test vectors of section 10 of RFC 4648, unpadded, and one for the last two characters of the alphabet. */
  lemma TestVectors()
    ensures Encode([102]) == "Zg" && Encode([102, 111]) == "Zm8" && Encode([102, 111, 111]) == "Zm9v"
    ensures Encode([102, 111, 111, 98, 97, 114]) == "Zm9vYmFy"
    ensures Encode([251, 255, 191]) == "+/+/"
  {
    assert [102, 111, 111][3..] == [] && [251, 255, 191][3..] == [];
    assert [102, 111, 111, 98, 97, 114][3..] == [98, 97, 114] && [98, 97, 114][3..] == [];
  }

  datatype Verdict = Accepts | Refuses | Panics

  /** The derivation panics on zero rounds or zero threads. */
  function VerifyPassword(kdf: Kdf, encoded: string, plain: seq<Byte>): Verdict {
    var s := Read(encoded);
    if s.None? then Refuses
    else if s.value.iterations == 0 || s.value.parallelism == 0 then Panics
    else if kdf(plain, s.value.salt, s.value.iterations, s.value.memory, s.value.parallelism, |s.value.key|) == s.value.key then Accepts
    else Refuses
  }

  // ---- round trip ----

  lemma {:induction false} SplitFirst(part: string, rest: string, c: char)
    requires c !in part
    ensures Split(part + ([c] + rest), c) == [part] + Split(rest, c)
    decreases |part|
  {
    var s := part + ([c] + rest);
    if part == "" {
      assert s == [c] + rest && s[1..] == rest;
    } else {
      SplitFirst(part[1..], rest, c);
      assert s[1..] == part[1..] + ([c] + rest);
      assert part == [part[0]] + part[1..];
    }
  }

  lemma {:induction false} SplitNone(part: string, c: char)
    requires c !in part
    ensures Split(part, c) == [part]
    decreases |part|
  {
    if part != "" {
      SplitNone(part[1..], c);
      assert part == [part[0]] + part[1..];
    }
  }

  lemma SplitEncoded(name: string, v: string, costs: string, salt: string, key: string)
    requires '$' !in name && '$' !in v && '$' !in costs && '$' !in salt && '$' !in key
    ensures Split("$" + (name + ("$" + (v + ("$" + (costs + ("$" + (salt + ("$" + key)))))))), '$')
      == ["", name, v, costs, salt, key]
  {
    hide Split;
    var r4 := salt + ("$" + key);
    var r3 := costs + ("$" + r4);
    var r2 := v + ("$" + r3);
    var r1 := name + ("$" + r2);
    SplitNone(key, '$');
    SplitFirst(salt, key, '$');
    SplitFirst(costs, r4, '$');
    SplitFirst(v, r3, '$');
    SplitFirst(name, r2, '$');
    SplitFirst("", r1, '$');
    assert "" + ("$" + r1) == "$" + r1;
  }

  lemma NoDollar(s: Stored)
    ensures (forall v :: '$' !in VersionPart(v)) && '$' !in CostPart(s)
  {
    forall n: nat ensures '$' !in Decimal(n) { assert AllDigits(Decimal(n)); }
  }

  lemma FieldReadsBack(literal: string, n: nat, rest: string, limit: nat)
    requires n < limit && (rest == "" || !IsDigit(rest[0]))
    ensures Field(literal + (Decimal(n) + rest), literal, limit) == Some((n, rest))
  {
    LiteralMatches(literal, Decimal(n) + rest);
    ValueOfDecimal(n);
    DigitsScan(Decimal(n), rest, limit);
  }

  lemma CostsReadBack(s: Stored)
    requires s.memory < UINT32 && s.iterations < UINT32 && s.parallelism < 256
    ensures ScanCosts(CostPart(s)) == Some((s.memory, s.iterations, s.parallelism))
  {
    var r2 := ",p=" + (Decimal(s.parallelism) + "");
    var r1 := ",t=" + (Decimal(s.iterations) + r2);
    FieldReadsBack("m=", s.memory, r1, UINT32);
    FieldReadsBack(",t=", s.iterations, r2, UINT32);
    FieldReadsBack(",p=", s.parallelism, "", 256);
    hide Field, Decimal;
  }

  lemma VersionReadsBack(v: nat)
    requires v < INT_LIMIT
    ensures ScanVersion(VersionPart(v)) == Some(v as int)
  {
    LiteralMatches("v=", Decimal(v) + "");
    ValueOfDecimal(v);
    DigitsScan(Decimal(v), "", 0);
  }

  lemma SplitStored(s: Stored)
    ensures Split(Encoded(s), '$') == ["", "argon2id", VersionPart(VERSION), CostPart(s), Encode(s.salt), Encode(s.key)]
  {
    NoDollar(s);
    Base64RoundTrip(s.salt);
    Base64RoundTrip(s.key);
    hide Decode, Encode, CostPart, VersionPart, Split;
    SplitEncoded("argon2id", VersionPart(VERSION), CostPart(s), Encode(s.salt), Encode(s.key));
  }

  /** What was stored is read back exactly: salt, costs and key. */
  lemma ReadsBack(s: Stored)
    requires s.memory < UINT32 && s.iterations < UINT32 && s.parallelism < 256
    ensures Read(Encoded(s)) == Some(s)
  {
    SplitStored(s);
    hide Encoded, Split;
    var parts := Split(Encoded(s), '$');
    assert parts[1] == "argon2id" && parts[3] == CostPart(s) && parts[4] == Encode(s.salt) && parts[5] == Encode(s.key);
    assert ScanVersion(parts[2]) == Some(VERSION as int) by { VersionReadsBack(VERSION); }
    hide ScanVersion, VersionPart;
    assert ScanCosts(parts[3]) == Some((s.memory, s.iterations, s.parallelism)) by { CostsReadBack(s); }
    hide ScanCosts, CostPart;
    assert Decode(parts[4]) == Some(s.salt) by { Base64RoundTrip(s.salt); }
    assert Decode(parts[5]) == Some(s.key) by { Base64RoundTrip(s.key); }
  }

  lemma {:induction false} PartsAreCounted(s: string, c: char)
    ensures |Split(s, c)| == multiset(s)[c] + 1
    decreases |s|
  {
    if s != "" {
      PartsAreCounted(s[1..], c);
      assert s == [s[0]] + s[1..];
    }
  }

  /** A text without exactly five dollar signs verifies no password. */
  lemma OtherShapesAreRefused(kdf: Kdf, encoded: string, plain: seq<Byte>)
    requires multiset(encoded)['$'] != 5
    ensures VerifyPassword(kdf, encoded, plain) == Refuses
  {
    PartsAreCounted(encoded, '$');
    hide Split;
  }

  /** Nor does one of the right shape that names another algorithm, or another version than 19 of this one. */
  lemma OtherAlgorithmsAreRefused(kdf: Kdf, name: string, v: nat, costs: string, salt: string, key: string, plain: seq<Byte>)
    requires '$' !in name && '$' !in costs && '$' !in salt && '$' !in key && v < INT_LIMIT
    requires name != "argon2id" || v != 19
    ensures
      VerifyPassword(kdf, "$" + (name + ("$" + (VersionPart(v) + ("$" + (costs + ("$" + (salt + ("$" + key)))))))), plain) == Refuses
  {
    NoDollar(Stored(0, 0, 0, [], []));
    SplitEncoded(name, VersionPart(v), costs, salt, key);
    VersionReadsBack(v);
    hide Split, ScanVersion, VersionPart, ScanCosts, Decode;
  }

  /** A hash accepts a password exactly when that password derives the stored key under the stored salt and costs,
      whatever parameters the hasher has by then: verification does not ask it. */
  lemma VerifyIffDerived(h: Hasher, kdf: Kdf, salt: seq<Byte>, plain: seq<Byte>, tried: seq<Byte>)
    requires h.Fits() && h.iterations > 0 && h.parallelism > 0 && GivesLength(kdf)
    ensures VerifyPassword(kdf, Hash(h, kdf, salt, plain), tried) ==
      if kdf(tried, salt, h.iterations, h.memory, h.parallelism, h.keyLength)
         == kdf(plain, salt, h.iterations, h.memory, h.parallelism, h.keyLength)
      then Accepts else Refuses
  {
    var key := kdf(plain, salt, h.iterations, h.memory, h.parallelism, h.keyLength);
    ReadsBack(Stored(h.memory, h.iterations, h.parallelism, salt, key));
    hide Read, Encoded;
    assert |key| == h.keyLength;
  }
}
