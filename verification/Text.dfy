/**
 Decimal numerals as `std::to_string` prints and `std::from_chars` reads them,
 the length-prefixed parts that every signed payload is built from, and text
 split at a delimiter.
 */
module Text {
  import opened Foundation

  // ----- Decimal numerals -----

  predicate IsDigit(c: char) { '0' <= c <= '9' }

  predicate AllDigits(text: string) {
    forall i :: 0 <= i < |text| ==> IsDigit(text[i])
  }

  /** A natural number in base ten, without leading zeros. */
  function Decimal(n: nat): (text: string)
    ensures text != "" && AllDigits(text)
  {
    (if n < 10 then "" else Decimal(n / 10)) + [('0' as int + n % 10) as char]
  }

  /** A signed number: a minus sign and the magnitude, or the magnitude alone. */
  function SignedDecimal(i: int): string {
    if i < 0 then "-" + Decimal(-i) else Decimal(i)
  }

  /** The number a numeral writes. */
  function Value(text: string): nat
    requires AllDigits(text)
  {
    if text == "" then 0 else Value(text[..|text| - 1]) * 10 + (text[|text| - 1] as int - '0' as int)
  }

  /** Reading all of `text` as an unsigned 64-bit number. */
  function ParseUnsigned(text: string): Option<nat> {
    if text != "" && AllDigits(text) && Value(text) < TWO_64 then Some(Value(text)) else None
  }

  /** Reading all of `text` as a signed 64-bit number. */
  function ParseSigned(text: string): Option<int> {
    if text != "" && text[0] == '-' then
      var digits := text[1..];
      if digits != "" && AllDigits(digits) && Value(digits) <= TWO_64 / 2 then Some(-(Value(digits) as int)) else None
    else if text != "" && AllDigits(text) && Value(text) < TWO_64 / 2 then Some(Value(text)) else None
  }

  lemma {:induction false} DecimalRoundTrip(n: nat)
    ensures Value(Decimal(n)) == n
  {
    if n >= 10 {
      DecimalRoundTrip(n / 10);
      assert Decimal(n)[..|Decimal(n)| - 1] == Decimal(n / 10);
    } else {
      assert Decimal(n)[..0] == "";
    }
  }

  lemma {:induction false} DecimalInjective(m: nat, n: nat)
    requires Decimal(m) == Decimal(n)
    ensures m == n
  {
    DecimalRoundTrip(m);
    DecimalRoundTrip(n);
  }

  lemma {:induction false} UnsignedRoundTrip(n: nat)
    requires n < TWO_64
    ensures ParseUnsigned(Decimal(n)) == Some(n)
  {
    DecimalRoundTrip(n);
  }

  lemma {:induction false} SignedRoundTrip(i: int)
    requires -(TWO_64 / 2) <= i < TWO_64 / 2
    ensures ParseSigned(SignedDecimal(i)) == Some(i)
  {
    DecimalRoundTrip(if i < 0 then -i else i);
    assert i < 0 ==> SignedDecimal(i)[1..] == Decimal(-i);
    assert i >= 0 ==> IsDigit(SignedDecimal(i)[0]);
  }

  lemma {:induction false} SignedDecimalInjective(i: int, j: int)
    requires SignedDecimal(i) == SignedDecimal(j)
    ensures i == j
  {
    DecimalRoundTrip(if i < 0 then -i else i);
    DecimalRoundTrip(if j < 0 then -j else j);
    assert i < 0 ==> SignedDecimal(i)[0] == '-' && SignedDecimal(i)[1..] == Decimal(-i);
    assert j < 0 ==> SignedDecimal(j)[0] == '-' && SignedDecimal(j)[1..] == Decimal(-j);
    assert i >= 0 ==> IsDigit(SignedDecimal(i)[0]);
    assert j >= 0 ==> IsDigit(SignedDecimal(j)[0]);
  }

  // ----- Length-prefixed parts -----

  /** One part: its length in decimal, a colon, and the text itself. */
  function Part(value: string): string {
    Decimal(|value|) + ":" + value
  }

  /** Parts one after the other, with nothing between them. */
  function Parts(values: seq<string>): string {
    if values == [] then "" else Part(values[0]) + Parts(values[1..])
  }

  lemma {:induction false} PartsAppend(values: seq<string>, more: seq<string>)
    ensures Parts(values + more) == Parts(values) + Parts(more)
  {
    if values == [] {
      assert values + more == more;
    } else {
      assert (values + more)[1..] == values[1..] + more;
      PartsAppend(values[1..], more);
    }
  }

  /** A part delimits itself, whatever its text contains. */
  lemma {:induction false} PartPrefixFree(x: string, s: string, y: string, t: string)
    requires Part(x) + s == Part(y) + t
    ensures x == y && s == t
  {
    var whole := Part(x) + s;
    var p, q := |Decimal(|x|)|, |Decimal(|y|)|;
    assert whole[..p] == Decimal(|x|) && whole[p] == ':';
    assert whole[..q] == Decimal(|y|) && whole[q] == ':';
    assert forall i :: 0 <= i < p ==> IsDigit(whole[i]);
    assert forall i :: 0 <= i < q ==> IsDigit(whole[i]);
    assert p == q;
    DecimalInjective(|x|, |y|);
    assert x == whole[p + 1..p + 1 + |x|] == y;
    assert s == whole[p + 1 + |x|..] == t;
  }

  /** Unique decodability: concatenated parts determine the list of texts. */
  lemma {:induction false} PartsInjective(a: seq<string>, b: seq<string>)
    requires Parts(a) == Parts(b)
    ensures a == b
  {
    if a == [] || b == [] {
      assert a != [] ==> Parts(a) != "";
      assert b != [] ==> Parts(b) != "";
    } else {
      PartPrefixFree(a[0], Parts(a[1..]), b[0], Parts(b[1..]));
      PartsInjective(a[1..], b[1..]);
      assert a == [a[0]] + a[1..] && b == [b[0]] + b[1..];
    }
  }

  /** Appends one part to a buffer of parts. */
  method AppendPart(output: string, value: string, ghost done: seq<string>) returns (output': string)
    requires output == Parts(done)
    ensures output' == Parts(done + [value])
  {
    output' := output + Decimal(|value|) + ":" + value;
    PartsAppend(done, [value]);
    assert Parts([value]) == Part(value) + Parts([value][1..]);
  }

  /** Appends parts one by one. */
  method AppendParts(output: string, values: seq<string>, ghost done: seq<string>) returns (output': string)
    requires output == Parts(done)
    ensures output' == Parts(done + values)
  {
    output' := output;
    assert done + values[..0] == done;
    for i := 0 to |values|
      invariant output' == Parts(done + values[..i])
    {
      output' := AppendPart(output', values[i], done + values[..i]);
      assert done + values[..i] + [values[i]] == done + values[..i + 1];
    }
    assert values[..|values|] == values;
  }

  // ----- Delimited fields -----

  /** Fields joined with one delimiter between neighbours. */
  function Joined(fields: seq<string>, delimiter: char): string {
    if fields == [] then ""
    else if |fields| == 1 then fields[0]
    else fields[0] + [delimiter] + Joined(fields[1..], delimiter)
  }

  ghost predicate Delimited(text: string, delimiter: char, fields: seq<string>) {
    && fields != []
    && (forall i :: 0 <= i < |fields| ==> delimiter !in fields[i])
    && Joined(fields, delimiter) == text
  }

  lemma {:induction false} JoinedSnoc(fields: seq<string>, last: string, delimiter: char)
    requires fields != []
    ensures Joined(fields + [last], delimiter) == Joined(fields, delimiter) + [delimiter] + last
  {
    if |fields| == 1 {
      assert (fields + [last])[1..] == [last];
    } else {
      assert (fields + [last])[1..] == fields[1..] + [last];
      JoinedSnoc(fields[1..], last, delimiter);
    }
  }

  lemma {:induction false} FirstFieldUnique(x: string, s: string, y: string, t: string, delimiter: char)
    requires delimiter !in x && delimiter !in y
    requires x + [delimiter] + s == y + [delimiter] + t
    ensures x == y && s == t
  {
    var whole := x + [delimiter] + s;
    assert forall i :: 0 <= i < |x| ==> whole[i] == x[i];
    assert forall i :: 0 <= i < |y| ==> whole[i] == y[i];
    assert whole[|x|] == delimiter && whole[|y|] == delimiter;
    assert x == whole[..|x|] == y;
    assert s == whole[|x| + 1..] == t;
  }

  /** A text has one division into fields free of the delimiter. */
  lemma {:induction false} DelimitedUnique(text: string, delimiter: char, a: seq<string>, b: seq<string>)
    requires Delimited(text, delimiter, a) && Delimited(text, delimiter, b)
    ensures a == b
    decreases |a|
  {
    assert |a| > 1 ==> text[|a[0]|] == delimiter;
    assert |b| > 1 ==> text[|b[0]|] == delimiter;
    if |a| > 1 && |b| > 1 {
      FirstFieldUnique(a[0], Joined(a[1..], delimiter), b[0], Joined(b[1..], delimiter), delimiter);
      DelimitedUnique(Joined(a[1..], delimiter), delimiter, a[1..], b[1..]);
      assert a == [a[0]] + a[1..] && b == [b[0]] + b[1..];
    }
  }

  predicate StartsWith(text: string, prefix: string) {
    |prefix| <= |text| && text[..|prefix|] == prefix
  }

  /** Position of the first `c` at or after `from`, or the length of the text. */
  function IndexOf(text: string, c: char, from: nat): (i: nat)
    requires from <= |text|
    ensures from <= i <= |text| && c !in text[from..i] && (i < |text| ==> text[i] == c)
    decreases |text| - from
  {
    if from == |text| || text[from] == c then from else IndexOf(text, c, from + 1)
  }

  /** The same, searched for in a loop. */
  method Find(text: string, delimiter: char, begin: nat) returns (end: nat)
    requires begin <= |text|
    ensures end == IndexOf(text, delimiter, begin)
  {
    end := begin;
    while end < |text| && text[end] != delimiter
      invariant begin <= end <= |text| && IndexOf(text, delimiter, begin) == IndexOf(text, delimiter, end)
    {
      end := end + 1;
    }
  }

  /** The fields of a text, empty ones included. */
  method Split(text: string, delimiter: char) returns (fields: seq<string>)
    ensures Delimited(text, delimiter, fields)
  {
    var end := Find(text, delimiter, 0);
    fields := [text[0..end]];
    while end < |text|
      invariant 0 <= end <= |text| && (end < |text| ==> text[end] == delimiter)
      invariant Delimited(text[..end], delimiter, fields)
      decreases |text| - end
    {
      var begin := end + 1;
      end := Find(text, delimiter, begin);
      JoinedSnoc(fields, text[begin..end], delimiter);
      assert text[..begin - 1] + [delimiter] + text[begin..end] == text[..end];
      fields := fields + [text[begin..end]];
    }
    assert text[..|text|] == text;
  }
}
