/** Shared value types: optional values, bytes and digests. */
module Foundation {

  datatype Option<+T> = None | Some(value: T)

  /** One `std::byte`. */
  type Byte = x: int | 0 <= x < 256

  /** A SHA-256 or HMAC-SHA-256 digest. */
  type Digest = d: seq<Byte> | |d| == 32 witness seq(32, _ => 0)

  /** HMAC-SHA-256 of a message under a key, which may fail. */
  type Hmac = (string, string) -> Option<Digest>

  /** The result of a fallible operation that carries no value. */
  datatype Status = Ok | Failed

  const TWO_32: nat := 0x1_0000_0000
  const TWO_64: nat := 0x1_0000_0000_0000_0000

  lemma {:induction false} MultipleAtLeast(m: nat, k: nat)
    requires k > 0
    ensures m * k >= m
  {
  }

  /** A remainder below the divisor is the remainder. */
  lemma {:induction false} DivModUnique(x: int, m: nat, q: int, r: nat)
    requires r < m && x == m * q + r
    ensures x % m == r
  {
    var d, e := x / m, x % m;
    assert x == m * d + e;
    if d > q {
      MultipleAtLeast(m, d - q);
    } else if d < q {
      MultipleAtLeast(m, q - d);
    }
  }
}
