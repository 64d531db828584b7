/**
 The scrypt password record: one line of text that carries its own work factors,
 salt and derived key.

 HMAC-SHA-256 and scrypt are parameters. The record printer and the reader meet
 only through the text, so that a record verifies means that decimal numerals,
 `$` fields and base64url all survive the trip.
 */
module PasswordRecord {
  import opened Foundation
  import opened Text
  import opened Encoding

  const MINIMUM_PASSWORD := 8
  const MAXIMUM_PASSWORD := 1024
  const MAXIMUM_COST := 0x10_0000
  const MAXIMUM_BLOCK_SIZE := 32
  const MAXIMUM_PARALLELISM := 16
  const MAXIMUM_MEMORY := 0x1000_0000

  datatype Error = InvalidArgument | FailedPrecondition | Internal

  datatype Result<+T> = Success(value: T) | Failure(error: Error)

  // ----- Policies -----

  datatype Policy = Policy(cost: nat, blockSize: nat, parallelism: nat, saltBytes: nat, derivedBytes: nat, maximumMemory: nat)

  /** Bitwise conjunction. */
  function BitAnd(a: nat, b: nat): nat {
    if a == 0 || b == 0 then 0 else 2 * BitAnd(a / 2, b / 2) + (if a % 2 == 1 && b % 2 == 1 then 1 else 0)
  }

  /** The bit trick the factory uses. */
  predicate IsPowerOfTwo(n: nat) {
    n > 1 && BitAnd(n, n - 1) == 0
  }

  function CreatePolicy(cost: nat, blockSize: nat, parallelism: nat, saltBytes: nat, derivedBytes: nat, maximumMemory: nat): Option<Policy>
    requires cost < TWO_64 && blockSize < TWO_64 && maximumMemory < TWO_64
  {
    if !IsPowerOfTwo(cost) || cost > MAXIMUM_COST
       || blockSize == 0 || blockSize > MAXIMUM_BLOCK_SIZE
       || parallelism == 0 || parallelism > MAXIMUM_PARALLELISM
       || saltBytes < 16 || derivedBytes < 32 || derivedBytes > 64 then None
    else if cost > 0 && blockSize > (TWO_64 - 1) / cost / 128 then None
    else
      var required := 128 * cost * blockSize % TWO_64;
      if maximumMemory < required || maximumMemory > MAXIMUM_MEMORY then None
      else Some(Policy(cost, blockSize, parallelism, saltBytes, derivedBytes, maximumMemory))
  }

  /** A policy its factory accepted. */
  predicate Accepted(p: Policy) {
    && p.cost < TWO_64 && p.blockSize < TWO_64 && p.maximumMemory < TWO_64
    && CreatePolicy(p.cost, p.blockSize, p.parallelism, p.saltBytes, p.derivedBytes, p.maximumMemory) == Some(p)
  }

  // ----- Key derivation -----

  datatype Crypto = Crypto(
    hmac: Hmac,
    scrypt: (Digest, seq<Byte>, Policy) -> Option<seq<Byte>>)

  /** Scrypt fills the buffer it is given. */
  ghost predicate Sound(c: Crypto) {
    forall m, salt, p :: c.scrypt(m, salt, p).Some? ==> |c.scrypt(m, salt, p).value| == p.derivedBytes
  }

  function Derive(c: Crypto, pepper: string, password: string, salt: seq<Byte>, p: Policy): Result<seq<Byte>> {
    if |password| < MINIMUM_PASSWORD || |password| > MAXIMUM_PASSWORD then Failure(InvalidArgument)
    else
      var prehash := c.hmac(pepper, password);
      if prehash.None? then Failure(Internal)
      else
        var key := c.scrypt(prehash.value, salt, p);
        if key.None? then Failure(Internal) else Success(key.value)
  }

  // ----- The record -----

  /** The eight fields of the record of a policy, a salt and a key in their base64url spellings. */
  function Fields(p: Policy, salt: string, key: string): seq<string> {
    ["scrypt", "v1", Decimal(p.cost), Decimal(p.blockSize), Decimal(p.parallelism), Decimal(p.maximumMemory), salt, key]
  }

  function WorkFactors(p: Policy): seq<string> {
    [Decimal(p.cost), Decimal(p.blockSize), Decimal(p.parallelism), Decimal(p.maximumMemory)]
  }

  /** `text` is the record of a policy's work factors, a salt and a key. */
  ghost predicate RecordOf(text: string, p: Policy, salt: seq<Byte>, key: seq<Byte>) {
    exists salt64, key64 :: Encodes(salt64, salt) && Encodes(key64, key) && text == Joined(Fields(p, salt64, key64), '$')
  }

  /** What `verify` answers, given the fields of a record. */
  ghost function VerdictOn(c: Crypto, pepper: string, password: string, fields: seq<string>): Result<bool> {
    if |fields| != 8 || fields[0] != "scrypt" || fields[1] != "v1" then Failure(InvalidArgument)
    else
      var cost, blockSize := ParseUnsigned(fields[2]), ParseUnsigned(fields[3]);
      var parallelism, memory := ParseUnsigned(fields[4]), ParseUnsigned(fields[5]);
      var salt, wanted := Base64Bytes(fields[6]), Base64Bytes(fields[7]);
      if cost.None? || blockSize.None? || parallelism.None? || memory.None? || salt.None? || wanted.None?
      then Failure(InvalidArgument)
      else
        var policy := CreatePolicy(cost.value, blockSize.value, parallelism.value, |salt.value|, |wanted.value|, memory.value);
        if policy.None? then Failure(InvalidArgument)
        else
          var actual := Derive(c, pepper, password, salt.value, policy.value);
          if actual.Failure? then Failure(actual.error) else Success(actual.value == wanted.value)
  }

  const ARGON2_PREFIX := "$argon2id$"
  const PASSWORD_PREFIX := "scrypt$v1$"

  /** `r` is the verdict on a record, whatever its fields are. */
  ghost predicate Verdict(c: Crypto, pepper: string, password: string, text: string, r: Result<bool>) {
    if StartsWith(text, ARGON2_PREFIX) then r == Failure(FailedPrecondition)
    else exists fields :: Delimited(text, '$', fields) && r == VerdictOn(c, pepper, password, fields)
  }

  /** `r` says whether a record is out of date under a policy. */
  ghost predicate Staleness(p: Policy, text: string, r: Result<bool>) {
    if !StartsWith(text, PASSWORD_PREFIX) then r == Success(true)
    else exists fields :: (Delimited(text, '$', fields)
        && r == (if |fields| != 8 then Failure(InvalidArgument) else Success(fields[2..6] != WorkFactors(p))))
  }

  /** The bounds within which an Argon2id record is accepted as text. */
  ghost predicate Argon2Encoding(text: string) {
    && StartsWith(text, ARGON2_PREFIX) && |text| <= 255 && '\0' !in text
    && exists parts, params :: (Delimited(text, '$', parts) && |parts| == 6 && parts[0] == "" && parts[1] == "argon2id" && parts[2] == "v=19"
        && 16 <= |parts[4]| <= 86 && 22 <= |parts[5]| <= 86
        && Delimited(parts[3], ',', params) && Argon2Parameters(params))
  }

  predicate Within(text: string, prefix: string, low: nat, high: nat) {
    && StartsWith(text, prefix)
    && var n := ParseUnsigned(text[|prefix|..]);
       n.Some? && low <= n.value <= high
  }

  predicate Argon2Parameters(params: seq<string>) {
    |params| == 3 && Within(params[0], "m=", 8192, 262144) && Within(params[1], "t=", 1, 10) && Within(params[2], "p=", 1, 1)
  }

  /** Eight fields, the first two fixed and none empty. */
  ghost predicate ScryptShape(text: string) {
    exists fields :: Delimited(text, '$', fields) && |fields| == 8 && fields[0] == "scrypt" && fields[1] == "v1"
      && forall i :: 2 <= i < 8 ==> fields[i] != ""
  }

  // ----- The operations -----

  method ValidArgon2Encoding(encoded: string) returns (valid: bool)
    ensures valid == Argon2Encoding(encoded)
  {
    hide Joined, ParseUnsigned;
    if !StartsWith(encoded, ARGON2_PREFIX) || |encoded| > 255 || '\0' in encoded {
      return false;
    }
    var parts := Split(encoded, '$');
    forall other | Delimited(encoded, '$', other) ensures other == parts {
      DelimitedUnique(encoded, '$', other, parts);
    }
    if |parts| != 6 || parts[0] != "" || parts[1] != "argon2id" || parts[2] != "v=19"
       || |parts[4]| < 16 || |parts[4]| > 86 || |parts[5]| < 22 || |parts[5]| > 86 {
      return false;
    }
    var params := Split(parts[3], ',');
    forall other | Delimited(parts[3], ',', other) ensures other == params {
      DelimitedUnique(parts[3], ',', other, params);
    }
    if |params| != 3 || !StartsWith(params[0], "m=") || !StartsWith(params[1], "t=") || !StartsWith(params[2], "p=") {
      return false;
    }
    var memory, iterations, parallelism := ParseUnsigned(params[0][2..]), ParseUnsigned(params[1][2..]), ParseUnsigned(params[2][2..]);
    valid := memory.Some? && iterations.Some? && parallelism.Some?
    && memory.value >= 8192 && memory.value <= 262144 && iterations.value >= 1 && iterations.value <= 10 && parallelism.value == 1;
    assert valid == Argon2Parameters(params);
  }

  method Parse(encoded: string) returns (r: Result<string>)
    ensures r == if Argon2Encoding(encoded) || ScryptShape(encoded) then Success(encoded) else Failure(InvalidArgument)
  {
    hide Joined, Argon2Encoding;
    var fields := Split(encoded, '$');
    forall other | Delimited(encoded, '$', other) ensures other == fields {
      DelimitedUnique(encoded, '$', other, fields);
    }
    var argon2 := ValidArgon2Encoding(encoded);
    if argon2 {
      return Success(encoded);
    }
    if |fields| != 8 || fields[0] != "scrypt" || fields[1] != "v1"
       || fields[2] == "" || fields[3] == "" || fields[4] == "" || fields[5] == "" || fields[6] == "" || fields[7] == "" {
      return Failure(InvalidArgument);
    }
    return Success(encoded);
  }

  /** Hashing with a salt drawn at random: the record of the policy, the salt and the derived key. */
  method Hash(c: Crypto, pepper: string, p: Policy, password: string, salt: seq<Byte>) returns (r: Result<string>)
    requires |salt| == p.saltBytes
    ensures var key := Derive(c, pepper, password, salt, p);
      if key.Failure? then r == Failure(key.error) else r.Success? && RecordOf(r.value, p, salt, key.value)
  {
    hide Derive, Encodes;
    var key := Derive(c, pepper, password, salt, p);
    if key.Failure? {
      return Failure(key.error);
    }
    var salt64 := ToBase64Url(salt);
    var key64 := ToBase64Url(key.value);
    var encoded := PASSWORD_PREFIX + Decimal(p.cost) + "$" + Decimal(p.blockSize) + "$" + Decimal(p.parallelism)
    + "$" + Decimal(p.maximumMemory) + "$" + salt64 + "$" + key64;
    RecordText(p, salt64, key64);
    return Success(encoded);
  }

  method Verify(c: Crypto, pepper: string, password: string, encoded: string) returns (r: Result<bool>)
    ensures Verdict(c, pepper, password, encoded, r)
  {
    hide Derive, Joined, Encodes, Base64Bytes, CreatePolicy;
    if StartsWith(encoded, ARGON2_PREFIX) {
      return Failure(FailedPrecondition);
    }
    var fields := Split(encoded, '$');
    if |fields| != 8 || fields[0] != "scrypt" || fields[1] != "v1" {
      return Failure(InvalidArgument);
    }
    var cost, blockSize := ParseUnsigned(fields[2]), ParseUnsigned(fields[3]);
    var parallelism, memory := ParseUnsigned(fields[4]), ParseUnsigned(fields[5]);
    var salt := FromBase64Url(fields[6]);
    var wanted := FromBase64Url(fields[7]);
    if cost.None? || blockSize.None? || parallelism.None? || memory.None? || salt.None? || wanted.None? {
      return Failure(InvalidArgument);
    }
    var policy := CreatePolicy(cost.value, blockSize.value, parallelism.value, |salt.value|, |wanted.value|, memory.value);
    if policy.None? {
      return Failure(InvalidArgument);
    }
    var actual := Derive(c, pepper, password, salt.value, policy.value);
    if actual.Failure? {
      return Failure(actual.error);
    }
    return Success(actual.value == wanted.value);
  }

  method NeedsRehash(p: Policy, stored: string) returns (r: Result<bool>)
    ensures Staleness(p, stored, r)
  {
    hide Joined, Decimal;
    if !StartsWith(stored, PASSWORD_PREFIX) {
      return Success(true);
    }
    var fields := Split(stored, '$');
    if |fields| != 8 {
      return Failure(InvalidArgument);
    }
    var current := WorkFactors(p);
    assert fields[2..6] == [fields[2], fields[3], fields[4], fields[5]];
    return Success(fields[2] != current[0] || fields[3] != current[1] || fields[4] != current[2] || fields[5] != current[3]);
  }

  // ----- Reading back what was written -----

  lemma {:induction false} HeadText(p: Policy, salt: string, key: string)
    ensures Joined(Fields(p, salt, key)[..5], '$')
      == PASSWORD_PREFIX + Decimal(p.cost) + "$" + Decimal(p.blockSize) + "$" + Decimal(p.parallelism)
  {
    hide Decimal, Joined;
    var f := Fields(p, salt, key);
    TagText(f);
    JoinedUpTo(f, 2);
    JoinedUpTo(f, 3);
    JoinedUpTo(f, 4);
  }

  lemma {:induction false} TagText(f: seq<string>)
    requires |f| >= 2 && f[0] == "scrypt" && f[1] == "v1"
    ensures Joined(f[..2], '$') + "$" == PASSWORD_PREFIX
  {
    assert f[..2][1..] == ["v1"];
  }

  lemma {:induction false} RecordText(p: Policy, salt: string, key: string)
    ensures Joined(Fields(p, salt, key), '$')
      == PASSWORD_PREFIX + Decimal(p.cost) + "$" + Decimal(p.blockSize) + "$" + Decimal(p.parallelism)
      + "$" + Decimal(p.maximumMemory) + "$" + salt + "$" + key
  {
    hide Decimal, Joined;
    var f := Fields(p, salt, key);
    HeadText(p, salt, key);
    JoinedUpTo(f, 5);
    JoinedUpTo(f, 6);
    JoinedUpTo(f, 7);
    assert f[..8] == f;
  }

  lemma {:induction false} JoinedUpTo(f: seq<string>, i: nat)
    requires 0 < i < |f|
    ensures Joined(f[..i + 1], '$') == Joined(f[..i], '$') + "$" + f[i]
  {
    JoinedSnoc(f[..i], f[i], '$');
    assert f[..i] + [f[i]] == f[..i + 1];
  }

  /** No field of a record contains the delimiter. */
  lemma {:induction false} RecordDelimited(text: string, p: Policy, salt64: string, key64: string)
    requires IsBase64Url(salt64) && IsBase64Url(key64) && text == Joined(Fields(p, salt64, key64), '$')
    ensures Delimited(text, '$', Fields(p, salt64, key64))
  {
    hide Joined, Decimal;
    NoDollar(Decimal(p.cost));
    NoDollar(Decimal(p.blockSize));
    NoDollar(Decimal(p.parallelism));
    NoDollar(Decimal(p.maximumMemory));
    assert SymbolValue('$') < 0;
  }

  lemma {:induction false} NoDollar(text: string)
    requires AllDigits(text)
    ensures '$' !in text
  {
  }

  /** A record parses, whatever the policy: its text has the right shape. */
  lemma {:induction false} RecordParses(text: string, p: Policy, salt: seq<Byte>, key: seq<Byte>)
    requires RecordOf(text, p, salt, key) && salt != [] && key != []
    ensures ScryptShape(text)
  {
    hide Joined, Decimal, Num64, Num256, IsBase64Url;
    var salt64, key64 :| Encodes(salt64, salt) && Encodes(key64, key) && text == Joined(Fields(p, salt64, key64), '$');
    RecordDelimited(text, p, salt64, key64);
    assert salt64 != "" && key64 != "";
    var f := Fields(p, salt64, key64);
    assert forall i :: 2 <= i < 8 ==> f[i] != "";
  }

  lemma {:induction false} NotArgon2(text: string, p: Policy, salt64: string, key64: string)
    requires text == Joined(Fields(p, salt64, key64), '$')
    ensures !StartsWith(text, ARGON2_PREFIX) && StartsWith(text, PASSWORD_PREFIX)
  {
    hide Joined, Decimal;
    RecordText(p, salt64, key64);
    assert text[0] == PASSWORD_PREFIX[0] && text[..|PASSWORD_PREFIX|] == PASSWORD_PREFIX;
  }

  /** The verdict on a record, under any password: are the recorded work factors within policy, and does deriving with them and the salt give the recorded key? */
  lemma {:induction false} RecordVerdict(c: Crypto, pepper: string, password: string, p: Policy, salt: seq<Byte>, key: seq<Byte>, text: string, r: Result<bool>)
    requires RecordOf(text, p, salt, key) && |salt| == p.saltBytes && |key| == p.derivedBytes
    requires p.cost < TWO_64 && p.blockSize < TWO_64 && p.parallelism < TWO_64 && p.maximumMemory < TWO_64
    requires Verdict(c, pepper, password, text, r)
    ensures r ==
      if !Accepted(p) || |password| < 8 || |password| > 1024 then Failure(InvalidArgument)
      else if c.hmac(pepper, password).None? then Failure(Internal)
      else if c.scrypt(c.hmac(pepper, password).value, salt, p).None? then Failure(Internal)
      else Success(c.scrypt(c.hmac(pepper, password).value, salt, p).value == key)
  {
    hide Joined, Decimal, Encodes, Base64Bytes, ParseUnsigned, CreatePolicy, StartsWith;
    var salt64, key64 :| Encodes(salt64, salt) && Encodes(key64, key) && text == Joined(Fields(p, salt64, key64), '$');
    NotArgon2(text, p, salt64, key64);
    var f := Fields(p, salt64, key64);
    var fields :| Delimited(text, '$', fields) && r == VerdictOn(c, pepper, password, fields);
    EncodesAlphabet(salt64, salt);
    EncodesAlphabet(key64, key);
    RecordDelimited(text, p, salt64, key64);
    DelimitedUnique(text, '$', f, fields);
    PolicyKeeps(p);
    UnsignedRoundTrip(p.cost);
    UnsignedRoundTrip(p.blockSize);
    UnsignedRoundTrip(p.parallelism);
    UnsignedRoundTrip(p.maximumMemory);
    Base64RoundTrip(salt64, salt);
    Base64RoundTrip(key64, key);
  }

  lemma {:induction false} EncodesAlphabet(text: string, bytes: seq<Byte>)
    requires Encodes(text, bytes)
    ensures IsBase64Url(text)
  {
  }

  lemma {:induction false} PolicyKeeps(p: Policy)
    requires p.cost < TWO_64 && p.blockSize < TWO_64 && p.maximumMemory < TWO_64
    ensures var r := CreatePolicy(p.cost, p.blockSize, p.parallelism, p.saltBytes, p.derivedBytes, p.maximumMemory);
      r == None || r == Some(p)
  {
    hide IsPowerOfTwo;
  }

  lemma {:induction false} AcceptedSmall(p: Policy)
    requires Accepted(p)
    ensures p.cost < TWO_64 && p.blockSize < TWO_64 && p.parallelism < TWO_64 && p.maximumMemory < TWO_64 && p.saltBytes >= 16 && p.derivedBytes >= 32
  {
    hide IsPowerOfTwo;
  }

  /** Whatever a hasher writes, any hasher with the same pepper confirms with the same password. */
  lemma {:induction false} HashVerifies(c: Crypto, pepper: string, password: string, p: Policy, salt: seq<Byte>, text: string, r: Result<bool>)
    requires Sound(c) && Accepted(p) && |salt| == p.saltBytes
    requires Derive(c, pepper, password, salt, p).Success? && RecordOf(text, p, salt, Derive(c, pepper, password, salt, p).value)
    requires Verdict(c, pepper, password, text, r)
    ensures r == Success(true) && ScryptShape(text)
  {
    hide RecordOf, Accepted, ScryptShape, Verdict;
    AcceptedSmall(p);
    RecordVerdict(c, pepper, password, p, salt, Derive(c, pepper, password, salt, p).value, text, r);
    RecordParses(text, p, salt, Derive(c, pepper, password, salt, p).value);
  }

  /** A record is current under a policy exactly when it was written with the same four work factors. */
  lemma {:induction false} RecordStaleness(text: string, p: Policy, q: Policy, salt: seq<Byte>, key: seq<Byte>, r: Result<bool>)
    requires RecordOf(text, p, salt, key) && Staleness(q, text, r)
    ensures r == Success(!(p.cost == q.cost && p.blockSize == q.blockSize && p.parallelism == q.parallelism && p.maximumMemory == q.maximumMemory))
  {
    hide Joined, Decimal, Encodes, StartsWith, Fields, WorkFactors;
    var salt64, key64 :| Encodes(salt64, salt) && Encodes(key64, key) && text == Joined(Fields(p, salt64, key64), '$');
    NotArgon2(text, p, salt64, key64);
    EncodesAlphabet(salt64, salt);
    EncodesAlphabet(key64, key);
    RecordDelimited(text, p, salt64, key64);
    var fields :| Delimited(text, '$', fields)
        && r == (if |fields| != 8 then Failure(InvalidArgument) else Success(fields[2..6] != WorkFactors(q)));
    DelimitedUnique(text, '$', fields, Fields(p, salt64, key64));
    MiddleFields(p, salt64, key64);
    WorkFactorsInjective(p, q);
  }

  lemma {:induction false} MiddleFields(p: Policy, salt64: string, key64: string)
    ensures |Fields(p, salt64, key64)| == 8 && Fields(p, salt64, key64)[2..6] == WorkFactors(p)
  {
    hide Decimal;
  }

  lemma {:induction false} WorkFactorsInjective(p: Policy, q: Policy)
    ensures WorkFactors(p) == WorkFactors(q)
      <==> p.cost == q.cost && p.blockSize == q.blockSize && p.parallelism == q.parallelism && p.maximumMemory == q.maximumMemory
  {
    hide Decimal;
    var a, b := WorkFactors(p), WorkFactors(q);
    if a == b {
      assert a[0] == b[0] && a[1] == b[1] && a[2] == b[2] && a[3] == b[3];
      DecimalInjective(p.cost, q.cost);
      DecimalInjective(p.blockSize, q.blockSize);
      DecimalInjective(p.parallelism, q.parallelism);
      DecimalInjective(p.maximumMemory, q.maximumMemory);
    }
  }

  /** Hashing, then parsing, verifying with the same password, and asking a hasher of policy `q` whether to hash again. */
  method HashThenVerify(c: Crypto, pepper: string, p: Policy, q: Policy, password: string, salt: seq<Byte>)
    returns (record: Result<string>, parsed: Result<string>, verdict: Result<bool>, stale: Result<bool>)
    requires Sound(c) && Accepted(p) && |salt| == p.saltBytes
    ensures record.Success? <==>
      8 <= |password| <= 1024 && c.hmac(pepper, password).Some? && c.scrypt(c.hmac(pepper, password).value, salt, p).Some?
    ensures record.Success? ==> parsed == record && verdict == Success(true)
    ensures record.Success? ==>
      stale == Success(!(p.cost == q.cost && p.blockSize == q.blockSize && p.parallelism == q.parallelism && p.maximumMemory == q.maximumMemory))
  {
    hide Accepted, RecordOf, Verdict, Staleness, ScryptShape, Argon2Encoding;
    record := Hash(c, pepper, p, password, salt);
    parsed, verdict, stale := Failure(Internal), Failure(Internal), Failure(Internal);
    if record.Success? {
      parsed := Parse(record.value);
      verdict := Verify(c, pepper, password, record.value);
      stale := NeedsRehash(q, record.value);
      var key := Derive(c, pepper, password, salt, p);
      HashVerifies(c, pepper, password, p, salt, record.value, verdict);
      RecordStaleness(record.value, p, q, salt, key.value, stale);
    }
  }

  // ----- What the factory accepts -----

  lemma {:induction false} QuotientLarge(cost: nat)
    requires 0 < cost <= MAXIMUM_COST
    ensures (TWO_64 - 1) / cost / 128 >= MAXIMUM_BLOCK_SIZE
  {
    var q := (TWO_64 - 1) / cost;
    assert cost * q + (TWO_64 - 1) % cost == TWO_64 - 1;
    assert cost * (q + 1) == cost * q + cost;
    assert cost * (q + 1) > TWO_64 - 1;
    Bounded(cost, q + 1, MAXIMUM_COST);
  }

  lemma {:induction false} Bounded(a: nat, b: nat, most: nat)
    requires a <= most
    ensures a * b <= most * b
  {
  }

  lemma {:induction false} RequiredFits(cost: nat, blockSize: nat)
    requires cost <= MAXIMUM_COST && blockSize <= MAXIMUM_BLOCK_SIZE
    ensures 128 * cost * blockSize % TWO_64 == 128 * cost * blockSize
  {
    Bounded(cost, blockSize, MAXIMUM_COST);
    assert 128 * cost * blockSize == 128 * (cost * blockSize);
    DivModUnique(128 * cost * blockSize, TWO_64, 0, 128 * cost * blockSize);
  }

  /** The overflow checks never decide: a policy is accepted exactly within its bounds, with memory enough for its work factor. */
  lemma {:induction false} PolicyExactly(cost: nat, blockSize: nat, parallelism: nat, saltBytes: nat, derivedBytes: nat, maximumMemory: nat)
    requires cost < TWO_64 && blockSize < TWO_64 && maximumMemory < TWO_64
    ensures CreatePolicy(cost, blockSize, parallelism, saltBytes, derivedBytes, maximumMemory).Some? <==>
      && (exists k: nat :: k > 0 && cost == Power(k)) && cost <= 0x10_0000 && 1 <= blockSize <= 32
      && 1 <= parallelism <= 16 && 16 <= saltBytes && 32 <= derivedBytes <= 64
      && 128 * cost * blockSize <= maximumMemory <= 256 * 1024 * 1024
  {
    hide IsPowerOfTwo, Power;
    PowerOfTwoMeaning(cost);
    if cost <= MAXIMUM_COST && blockSize <= MAXIMUM_BLOCK_SIZE {
      RequiredFits(cost, blockSize);
      if cost > 0 {
        QuotientLarge(cost);
      }
    }
  }

  /** `1 << k`. */
  function Power(k: nat): (n: nat)
    ensures n > 0
  {
    if k == 0 then 1 else 2 * Power(k - 1)
  }

  /** The bit trick finds exactly the powers of two above one. */
  lemma {:induction false} PowerOfTwoMeaning(n: nat)
    ensures IsPowerOfTwo(n) <==> exists k: nat :: k > 0 && n == Power(k)
  {
    hide IsPowerOfTwo, Power;
    if IsPowerOfTwo(n) {
      FoundIsPower(n);
    }
    forall k: nat | k > 0 && n == Power(k) ensures IsPowerOfTwo(n) {
      PowerIsFound(k);
    }
  }

  lemma {:induction false} FoundIsPower(n: nat)
    requires IsPowerOfTwo(n)
    ensures exists k: nat :: k > 0 && n == Power(k)
  {
    hide BitAnd;
    Halved(n);
    if n == 2 {
      assert Power(1) == 2 * Power(0) && Power(0) == 1;
    } else {
      FoundIsPower(n / 2);
      var k: nat :| k > 0 && n / 2 == Power(k);
      assert n == Power(k + 1);
    }
  }

  lemma {:induction false} PowerIsFound(k: nat)
    requires k > 0
    ensures IsPowerOfTwo(Power(k))
  {
    hide BitAnd, IsPowerOfTwo;
    assert Power(k) == 2 * Power(k - 1);
    if k == 1 {
      assert Power(0) == 1;
      Halved(2);
    } else {
      assert Power(k - 1) == 2 * Power(k - 2);
      PowerIsFound(k - 1);
      Doubled(Power(k - 1));
    }
  }

  lemma {:induction false} Doubled(n: nat)
    requires n > 1 && IsPowerOfTwo(n)
    ensures IsPowerOfTwo(2 * n)
  {
    hide IsPowerOfTwo;
    Halved(2 * n);
  }

  lemma {:induction false} Halved(n: nat)
    requires n > 1
    ensures n % 2 == 1 ==> !IsPowerOfTwo(n)
    ensures IsPowerOfTwo(2)
    ensures n % 2 == 0 && n > 2 ==> (IsPowerOfTwo(n) <==> IsPowerOfTwo(n / 2))
  {
    if n % 2 == 1 {
      assert (n - 1) / 2 == n / 2;
      AndSelf(n / 2);
    } else if n > 2 {
      assert (n - 1) / 2 == n / 2 - 1;
    }
    assert BitAnd(2, 1) == 2 * BitAnd(1, 0);
  }

  lemma {:induction false} AndSelf(n: nat)
    ensures BitAnd(n, n) == n
  {
    if n == 0 {
    } else {
      AndSelf(n / 2);
      assert n == 2 * (n / 2) + n % 2;
    }
  }
}
