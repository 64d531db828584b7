/**
 The hexadecimal and base64url codecs of the foundation library.

 Text is a `string` whose characters stand for the bytes of a `std::string`.
 The specification of base64url is positional: a text encodes some bytes when
 the text, read as a number in base 64, is the bytes, read as a number in base
 256, shifted left by the padding bits. It mentions neither groups nor
 accumulators.
 */
module Encoding {
  import opened Foundation

  // ----- Hexadecimal -----

  /** The lower-case digits. */
  function HexDigit(n: nat): char
    requires n < 16
  {
    "0123456789abcdef"[n]
  }

  /** The decode table: -1 for every character that is not a hexadecimal digit. */
  function HexValue(c: char): int {
    if '0' <= c <= '9' then c as int - '0' as int
    else if 'a' <= c <= 'f' then c as int - 'a' as int + 10
    else if 'A' <= c <= 'F' then c as int - 'A' as int + 10
    else -1
  }

  /** Lower-case hexadecimal, two digits a byte, high nibble first. */
  function HexText(bytes: seq<Byte>): string {
    seq(2 * |bytes|, i requires 0 <= i < 2 * |bytes| =>
      if i % 2 == 0 then HexDigit(bytes[i / 2] / 16) else HexDigit(bytes[i / 2] % 16))
  }

  predicate IsHex(text: string) {
    |text| % 2 == 0 && forall i :: 0 <= i < |text| ==> HexValue(text[i]) >= 0
  }

  function HexPair(text: string, k: nat): Byte
    requires IsHex(text) && 2 * k + 1 < |text|
  {
    16 * HexValue(text[2 * k]) + HexValue(text[2 * k + 1])
  }

  /** What a hexadecimal text denotes, if anything. */
  function HexBytes(text: string): Option<seq<Byte>> {
    if IsHex(text) then Some(seq(|text| / 2, k requires 0 <= k < |text| / 2 => HexPair(text, k)))
    else None
  }

  function LowerHex(c: char): char {
    if 'A' <= c <= 'F' then (c as int - 'A' as int + 'a' as int) as char else c
  }

  lemma {:induction false} HexDigitValue(n: nat)
    requires n < 16
    ensures HexValue(HexDigit(n)) == n
    ensures LowerHex(HexDigit(n)) == HexDigit(n)
  {
  }

  lemma {:induction false} HexValueDigit(c: char)
    requires HexValue(c) >= 0
    ensures HexValue(c) < 16 && HexDigit(HexValue(c)) == LowerHex(c)
  {
  }

  /** The two digits of a byte. */
  lemma {:induction false} HexTextAt(bytes: seq<Byte>, k: nat)
    requires k < |bytes|
    ensures |HexText(bytes)| == 2 * |bytes|
    ensures HexText(bytes)[2 * k] == HexDigit(bytes[k] / 16) && HexText(bytes)[2 * k + 1] == HexDigit(bytes[k] % 16)
  {
    hide HexDigit;
    assert (2 * k) / 2 == k && (2 * k + 1) / 2 == k && (2 * k + 1) % 2 == 1;
  }

  lemma {:induction false} HexTextLength(bytes: seq<Byte>)
    ensures |HexText(bytes)| == 2 * |bytes|
  {
    hide HexDigit;
  }

  /** Decoding an encoding returns the bytes. */
  lemma {:induction false} HexRoundTrip(bytes: seq<Byte>)
    ensures HexBytes(HexText(bytes)) == Some(bytes)
  {
    hide HexDigit, HexText, HexValue;
    var text := HexText(bytes);
    HexTextLength(bytes);
    forall i | 0 <= i < |text| ensures HexValue(text[i]) >= 0 {
      var k := i / 2;
      HexTextAt(bytes, k);
      HexDigitValue(bytes[k] / 16);
      HexDigitValue(bytes[k] % 16);
      assert i == 2 * k || i == 2 * k + 1;
    }
    forall k | 0 <= k < |bytes| ensures HexPair(text, k) == bytes[k] {
      HexTextAt(bytes, k);
      HexDigitValue(bytes[k] / 16);
      HexDigitValue(bytes[k] % 16);
    }
    assert HexBytes(text).value == bytes;
  }

  /** Encoding a decoding returns the text in lower case: the two spellings of a letter are the only freedom. */
  lemma {:induction false} HexCanonical(text: string)
    requires IsHex(text)
    ensures HexText(HexBytes(text).value) == seq(|text|, i requires 0 <= i < |text| => LowerHex(text[i]))
  {
    hide HexDigit, HexText, HexValue, LowerHex;
    var bytes := HexBytes(text).value;
    HexTextLength(bytes);
    forall i | 0 <= i < |text| ensures HexText(bytes)[i] == LowerHex(text[i]) {
      var k := i / 2;
      HexTextAt(bytes, k);
      assert i == 2 * k || i == 2 * k + 1;
      HexValueDigit(text[2 * k]);
      HexValueDigit(text[2 * k + 1]);
      assert bytes[k] / 16 == HexValue(text[2 * k]) && bytes[k] % 16 == HexValue(text[2 * k + 1]);
    }
  }

  lemma {:induction false} HexInjective(a: seq<Byte>, b: seq<Byte>)
    requires HexText(a) == HexText(b)
    ensures a == b
  {
    HexRoundTrip(a);
    HexRoundTrip(b);
  }

  lemma {:induction false} HexTextSnoc(bytes: seq<Byte>, i: nat)
    requires i < |bytes|
    ensures HexText(bytes[..i + 1]) == HexText(bytes[..i]) + [HexDigit(bytes[i] / 16)] + [HexDigit(bytes[i] % 16)]
  {
    hide HexDigit;
  }

  method ToHex(bytes: seq<Byte>) returns (out: string)
    ensures out == HexText(bytes)
  {
    hide HexDigit;
    out := "";
    for i := 0 to |bytes|
      invariant out == HexText(bytes[..i])
    {
      var raw := bytes[i];
      out := out + [HexDigit(raw / 16 % 16)] + [HexDigit(raw % 16)];
      HexTextSnoc(bytes, i);
    }
    assert bytes[..|bytes|] == bytes;
  }

  method FromHex(text: string) returns (result: Option<seq<Byte>>)
    ensures result == HexBytes(text)
  {
    if |text| % 2 != 0 {
      return None;
    }
    var out: seq<Byte> := [];
    var index := 0;
    while index < |text|
      invariant 0 <= index <= |text| && index % 2 == 0
      invariant forall i :: 0 <= i < index ==> HexValue(text[i]) >= 0
      invariant |out| == index / 2
      invariant forall k :: 0 <= k < |out| ==> out[k] == 16 * HexValue(text[2 * k]) + HexValue(text[2 * k + 1])
    {
      var high, low := HexValue(text[index]), HexValue(text[index + 1]);
      if high < 0 || low < 0 {
        return None;
      }
      out := out + [16 * high + low];
      index := index + 2;
    }
    assert out == HexBytes(text).value;
    return Some(out);
  }

  // ----- Base64url -----

  /** The URL-safe alphabet: upper case, lower case, digits, `-` and `_`. */
  function Symbol(n: nat): char
    requires n < 64
  {
    if n < 26 then ('A' as int + n) as char
    else if n < 52 then ('a' as int + n - 26) as char
    else if n < 62 then ('0' as int + n - 52) as char
    else if n == 62 then '-'
    else '_'
  }

  /** The alphabet of section 5 of RFC 4648, letter by letter. */
  lemma {:induction false} SymbolIs(n: nat)
    requires n < 64
    ensures Symbol(n) == (if n < 26 then "ABCDEFGHIJKLMNOPQRSTUVWXYZ"[n] else if n < 52 then "abcdefghijklmnopqrstuvwxyz"[n - 26] else "0123456789-_"[n - 52])
    ensures SymbolValue(Symbol(n)) == n
  {
    if n < 26 {
      Letters(n);
    } else if n < 52 {
      Letters(n - 26);
    } else {
      Others(n - 52);
    }
  }

  lemma {:induction false} Letters(n: nat)
    requires n < 26
    ensures "ABCDEFGHIJKLMNOPQRSTUVWXYZ"[n] as int == 'A' as int + n && "abcdefghijklmnopqrstuvwxyz"[n] as int == 'a' as int + n
  {
  }

  lemma {:induction false} Others(n: nat)
    requires n < 12
    ensures "0123456789-_"[n] == if n < 10 then ('0' as int + n) as char else if n == 10 then '-' else '_'
  {
  }

  /** The decode table: -1 for every character outside the alphabet. */
  function SymbolValue(c: char): int {
    if 'A' <= c <= 'Z' then c as int - 'A' as int
    else if 'a' <= c <= 'z' then c as int - 'a' as int + 26
    else if '0' <= c <= '9' then c as int - '0' as int + 52
    else if c == '-' then 62
    else if c == '_' then 63
    else -1
  }

  predicate IsBase64Url(text: string) {
    forall i :: 0 <= i < |text| ==> SymbolValue(text[i]) >= 0
  }

  /** The number a text writes in base 64. */
  ghost function Num64(text: string): int {
    if text == "" then 0 else Num64(text[..|text| - 1]) * 64 + SymbolValue(text[|text| - 1])
  }

  /** The number a byte string writes in base 256. */
  ghost function Num256(bytes: seq<Byte>): int {
    if bytes == [] then 0 else Num256(bytes[..|bytes| - 1]) * 256 + bytes[|bytes| - 1]
  }

  /** How many bits of the last symbol fall short of a whole byte. */
  type Surplus = bits: int | bits == 0 || bits == 2 || bits == 4 || bits == 6

  /** `n` shifted left by the surplus bits. */
  function Shifted(n: int, bits: Surplus): int {
    if bits == 0 then n else if bits == 2 then n * 4 else if bits == 4 then n * 16 else n * 64
  }

  /** `n` shifted right by the surplus bits. */
  function Above(n: int, bits: Surplus): int {
    if bits == 0 then n else if bits == 2 then n / 4 else if bits == 4 then n / 16 else n / 64
  }

  /** The surplus bits of `n`. */
  function Low(n: int, bits: Surplus): nat {
    if bits == 0 then 0 else if bits == 2 then n % 4 else if bits == 4 then n % 16 else n % 64
  }

  /** `text` is the unpadded base64url form of `bytes`: the only spelling the codec accepts. */
  ghost predicate Encodes(text: string, bytes: seq<Byte>) {
    && IsBase64Url(text)
    && var spare := 6 * |text| - 8 * |bytes|;
       (spare == 0 || spare == 2 || spare == 4) && Num64(text) == Shifted(Num256(bytes), spare)
  }

  function Unpadded(text: string): string {
    if text != "" && text[|text| - 1] == '=' then Unpadded(text[..|text| - 1]) else text
  }

  lemma {:induction false} Num64Injective(a: string, b: string)
    requires |a| == |b| && IsBase64Url(a) && IsBase64Url(b)
    requires Num64(a) == Num64(b)
    ensures a == b
  {
    if a == "" {
    } else {
      var n := |a| - 1;
      assert SymbolValue(a[n]) == SymbolValue(b[n]);
      Num64Injective(a[..n], b[..n]);
      assert a == a[..n] + [a[n]] && b == b[..n] + [b[n]];
    }
  }

  lemma {:induction false} Num256Injective(a: seq<Byte>, b: seq<Byte>)
    requires |a| == |b| && Num256(a) == Num256(b)
    ensures a == b
  {
    if a == [] {
    } else {
      var n := |a| - 1;
      Num256Injective(a[..n], b[..n]);
      assert a == a[..n] + [a[n]] && b == b[..n] + [b[n]];
    }
  }

  /** The encoding relation is one to one: a text spells at most one byte string, and a byte string has at most one spelling. */
  lemma {:induction false} EncodesBijective(text: string, bytes: seq<Byte>, text': string, bytes': seq<Byte>)
    requires Encodes(text, bytes) && Encodes(text', bytes')
    ensures text == text' <==> bytes == bytes'
  {
    if text == text' {
      Num256Injective(bytes, bytes');
    }
    if bytes == bytes' {
      Num64Injective(text, text');
    }
  }

  /** What a base64url text denotes, if anything; trailing `=` is ignored. */
  ghost function Base64Bytes(text: string): Option<seq<Byte>> {
    if exists bytes :: Encodes(Unpadded(text), bytes)
    then var bytes :| Encodes(Unpadded(text), bytes); Some(bytes)
    else None
  }

  lemma {:induction false} Base64Meaning(text: string, bytes: seq<Byte>)
    requires Encodes(Unpadded(text), bytes)
    ensures Base64Bytes(text) == Some(bytes)
  {
    EncodesBijective(Unpadded(text), bytes, Unpadded(text), Base64Bytes(text).value);
  }

  /** Decoding inverts encoding. */
  lemma {:induction false} Base64RoundTrip(text: string, bytes: seq<Byte>)
    requires Encodes(text, bytes)
    ensures Base64Bytes(text) == Some(bytes)
  {
    assert Unpadded(text) == text;
    Base64Meaning(text, bytes);
  }

  lemma {:induction false} Num256Append(bytes: seq<Byte>, index: nat)
    requires index < |bytes|
    ensures Num256(bytes[..index + 1]) == Num256(bytes[..index]) * 256 + bytes[index] as int
  {
    assert bytes[..index + 1][..index] == bytes[..index];
  }

  lemma {:induction false} TripleSymbols(triple: nat)
    requires triple < 0x100_0000
    ensures triple / 0x4_0000 % 64 * 0x4_0000 + triple / 0x1000 % 64 * 0x1000 + triple / 64 % 64 * 64 + triple % 64 == triple
  {
    assert triple / 0x1000 == triple / 0x4_0000 * 64 + triple / 0x1000 % 64;
    assert triple / 64 == triple / 0x1000 * 64 + triple / 64 % 64;
  }

  lemma {:induction false} TailSymbols(first: int, second: int)
    requires 0 <= first < 256 && 0 <= second < 256
    ensures first / 4 % 64 * 64 + first * 16 % 64 == first * 16
    ensures first / 4 % 64 * 4096 + (first * 16 + second / 16) % 64 * 64 + second * 4 % 64 == first * 1024 + second * 4
  {
    DivModUnique(first * 16, 64, first / 4, first % 4 * 16);
    DivModUnique(first * 16 + second / 16, 64, first / 4, first % 4 * 16 + second / 16);
    DivModUnique(second * 4, 64, second / 16, second % 16 * 4);
  }

  lemma {:induction false} NothingEncoded()
    ensures IsBase64Url("") && Num64("") == 0 && Num256([]) == 0
  {
  }

  /** What a whole group of three bytes adds to the number. */
  lemma {:induction false} Num256Triple(bytes: seq<Byte>, index: nat)
    requires index + 3 <= |bytes|
    ensures Num256(bytes[..index + 3])
      == Num256(bytes[..index]) * 0x100_0000 + bytes[index] as int * 0x1_0000 + bytes[index + 1] as int * 0x100 + bytes[index + 2] as int
  {
    hide Num256;
    Num256Append(bytes, index);
    Num256Append(bytes, index + 1);
    Num256Append(bytes, index + 2);
  }

  /** The encoder: three bytes to four symbols, with a final group of two or three symbols. */
  method ToBase64Url(bytes: seq<Byte>) returns (out: string)
    ensures Encodes(out, bytes)
  {
    hide Num64, Num256, IsBase64Url;
    out := "";
    var index := 0;
    NothingEncoded();
    assert bytes[..0] == [];
    while index + 3 <= |bytes|
      invariant 0 <= index <= |bytes|
      invariant IsBase64Url(out) && 6 * |out| == 8 * index
      invariant Num64(out) == Num256(bytes[..index])
    {
      var triple := bytes[index] as int * 0x1_0000 + bytes[index + 1] as int * 0x100 + bytes[index + 2] as int;
      out := PushTriple(out, triple);
      Num256Triple(bytes, index);
      index := index + 3;
    }
    var remaining := |bytes| - index;
    assert bytes[..|bytes|] == bytes;
    if remaining == 1 {
      Num256Append(bytes, index);
      out := PushOne(out, bytes[index]);
    } else if remaining == 2 {
      Num256Append(bytes, index);
      Num256Append(bytes, index + 1);
      out := PushTwo(out, bytes[index], bytes[index + 1]);
    }
  }

  /** Four symbols for three bytes. */
  method PushTriple(text: string, triple: nat) returns (out: string)
    requires IsBase64Url(text) && triple < 0x100_0000
    ensures IsBase64Url(out) && |out| == |text| + 4 && Num64(out) == Num64(text) * 0x100_0000 + triple
  {
    hide Num64, IsBase64Url;
    TripleSymbols(triple);
    out := Push(text, triple / 0x4_0000 % 64);
    out := Push(out, triple / 0x1000 % 64);
    out := Push(out, triple / 64 % 64);
    out := Push(out, triple % 64);
  }

  /** Two symbols for a last byte, with four spare bits. */
  method PushOne(text: string, first: int) returns (out: string)
    requires IsBase64Url(text) && 0 <= first < 256
    ensures IsBase64Url(out) && |out| == |text| + 2 && Num64(out) == (Num64(text) * 256 + first) * 16
  {
    hide Num64, IsBase64Url;
    TailSymbols(first, 0);
    out := Push(text, first / 4 % 64);
    out := Push(out, first * 16 % 64);
  }

  /** Three symbols for two last bytes, with two spare bits. */
  method PushTwo(text: string, first: int, second: int) returns (out: string)
    requires IsBase64Url(text) && 0 <= first < 256 && 0 <= second < 256
    ensures IsBase64Url(out) && |out| == |text| + 3 && Num64(out) == ((Num64(text) * 256 + first) * 256 + second) * 4
  {
    hide Num64, IsBase64Url;
    TailSymbols(first, second);
    out := Push(text, first / 4 % 64);
    out := Push(out, (first * 16 + second / 16) % 64);
    out := Push(out, second * 4 % 64);
  }

  /** Appends the symbol of a six-bit value. */
  method Push(text: string, value: nat) returns (out: string)
    requires IsBase64Url(text) && value < 64
    ensures IsBase64Url(out) && |out| == |text| + 1
    ensures Num64(out) == Num64(text) * 64 + value
  {
    out := text + [Symbol(value)];
    assert out[..|text|] == text;
  }

  /** The low `pendingBits` of the accumulator are the bits read but not yet emitted; higher ones may be lost to the 32-bit wrap. */
  ghost predicate Decoded(read: string, out: seq<Byte>, accumulator: nat, pendingBits: Surplus) {
    && IsBase64Url(read)
    && 6 * |read| == 8 * |out| + pendingBits
    && Num64(read) == Shifted(Num256(out), pendingBits) + Low(accumulator, pendingBits)
  }

  /** Losing the bits above the thirty-second never touches the pending ones. */
  lemma {:induction false} WrapKeepsPending(accumulator: nat, value: nat, bits: Surplus)
    requires value < 64
    ensures (accumulator * 64 + value) % TWO_32 % Shifted(64, bits) == Low(accumulator, bits) * 64 + value
  {
    var sum, low := accumulator * 64 + value, Low(accumulator, bits) * 64 + value;
    var wraps := sum / TWO_32;
    if bits == 0 {
      DivModUnique(sum % TWO_32, 64, accumulator - 0x400_0000 * wraps, low);
    } else if bits == 2 {
      DivModUnique(sum % TWO_32, 256, accumulator / 4 - 0x100_0000 * wraps, low);
    } else if bits == 4 {
      DivModUnique(sum % TWO_32, 1024, accumulator / 16 - 0x40_0000 * wraps, low);
    } else {
      DivModUnique(sum % TWO_32, 4096, accumulator / 64 - 0x10_0000 * wraps, low);
    }
  }

  lemma {:induction false} SplitEmitted(x: nat, bits: Surplus)
    requires bits < 6
    ensures x % Shifted(256, bits) == Shifted(Above(x, bits) % 256, bits) + Low(x, bits)
  {
    DivModUnique(x, Shifted(256, bits), Above(x, bits) / 256, Shifted(Above(x, bits) % 256, bits) + Low(x, bits));
  }

  /** One symbol of the decoder, with its 32-bit accumulator. */
  method DecodeSymbol(ghost read: string, symbol: char, out: seq<Byte>, accumulator: nat, pendingBits: Surplus)
    returns (out': seq<Byte>, accumulator': nat, pendingBits': Surplus)
    requires Decoded(read, out, accumulator, pendingBits)
    requires SymbolValue(symbol) >= 0
    ensures Decoded(read + [symbol], out', accumulator', pendingBits')
    ensures accumulator' < TWO_32
  {
    var value := SymbolValue(symbol);
    accumulator' := (accumulator * 64 + value) % TWO_32;
    assert (read + [symbol])[..|read|] == read;
    WrapKeepsPending(accumulator, value, pendingBits);
    if pendingBits + 6 >= 8 {
      pendingBits' := pendingBits + 6 - 8;
      var emitted: Byte := Above(accumulator', pendingBits') % 256;
      out' := out + [emitted];
      assert out'[..|out|] == out;
      SplitEmitted(accumulator', pendingBits');
    } else {
      pendingBits' := pendingBits + 6;
      out' := out;
    }
  }

  lemma {:induction false} NothingDecoded(text: string)
    requires text == ""
    ensures Decoded(text, [], 0, 0)
  {
  }

  lemma {:induction false} ShortSurplus(text: string, out: seq<Byte>, accumulator: nat, pendingBits: Surplus)
    requires Decoded(text, out, accumulator, pendingBits) && |text| % 4 != 1
    ensures pendingBits < 6
  {
  }

  lemma {:induction false} ImpossibleLength(text: string)
    requires |text| % 4 == 1
    ensures !exists bytes :: Encodes(text, bytes)
  {
    if bytes :| Encodes(text, bytes) {
      assert false;
    }
  }

  lemma {:induction false} BadSymbol(text: string, i: nat)
    requires i < |text| && SymbolValue(text[i]) < 0
    ensures !exists bytes :: Encodes(text, bytes)
  {
  }

  lemma {:induction false} NoSurplus(text: string, bytes: seq<Byte>, out: seq<Byte>, accumulator: nat, pendingBits: Surplus)
    requires Decoded(text, out, accumulator, pendingBits) && pendingBits < 6 && Encodes(text, bytes)
    ensures Low(accumulator, pendingBits) == 0
  {
    hide Num64, Num256, IsBase64Url;
    assert 6 * |text| - 8 * |bytes| == pendingBits;
  }

  /** Non-zero surplus bits leave the text without a meaning. */
  lemma {:induction false} NotCanonical(text: string, out: seq<Byte>, accumulator: nat, pendingBits: Surplus)
    requires Decoded(text, out, accumulator, pendingBits)
    requires pendingBits < 6 && Low(accumulator, pendingBits) != 0
    ensures !exists bytes :: Encodes(text, bytes)
  {
    hide *;
    if bytes :| Encodes(text, bytes) {
      NoSurplus(text, bytes, out, accumulator, pendingBits);
      assert false;
    }
  }

  lemma {:induction false} IsCanonical(text: string, out: seq<Byte>, accumulator: nat, pendingBits: Surplus)
    requires Decoded(text, out, accumulator, pendingBits)
    requires pendingBits < 6 && Low(accumulator, pendingBits) == 0
    ensures Encodes(text, out)
  {
  }

  /** The decoder succeeds exactly on the canonical spellings, and returns the bytes they spell. */
  method FromBase64Url(text: string) returns (result: Option<seq<Byte>>)
    ensures result == Base64Bytes(text)
    ensures result.Some? ==> Encodes(Unpadded(text), result.value)
  {
    var trimmed := text;
    while trimmed != "" && trimmed[|trimmed| - 1] == '='
      invariant Unpadded(trimmed) == Unpadded(text)
      decreases |trimmed|
    {
      trimmed := trimmed[..|trimmed| - 1];
    }
    result := DecodeUnpadded(trimmed);
    if result.Some? {
      Base64Meaning(text, result.value);
    }
  }

  method DecodeUnpadded(trimmed: string) returns (result: Option<seq<Byte>>)
    ensures result.Some? ==> Encodes(trimmed, result.value)
    ensures result.None? ==> !exists bytes :: Encodes(trimmed, bytes)
  {
    hide Decoded, Encodes, IsBase64Url;
    if |trimmed| % 4 == 1 {
      ImpossibleLength(trimmed);
      return None;
    }
    NothingDecoded(trimmed[..0]);
    var out: seq<Byte> := [];
    var accumulator: nat, pendingBits: Surplus := 0, 0;
    for i := 0 to |trimmed|
      invariant Decoded(trimmed[..i], out, accumulator, pendingBits)
    {
      if SymbolValue(trimmed[i]) < 0 {
        BadSymbol(trimmed, i);
        return None;
      }
      out, accumulator, pendingBits := DecodeSymbol(trimmed[..i], trimmed[i], out, accumulator, pendingBits);
      assert trimmed[..i] + [trimmed[i]] == trimmed[..i + 1];
    }
    assert trimmed[..|trimmed|] == trimmed;
    ShortSurplus(trimmed, out, accumulator, pendingBits);
    if pendingBits > 0 && Low(accumulator, pendingBits) != 0 {
      NotCanonical(trimmed, out, accumulator, pendingBits);
      return None;
    }
    IsCanonical(trimmed, out, accumulator, pendingBits);
    return Some(out);
  }
}
