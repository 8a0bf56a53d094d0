/** Failure-compatible results and the bytes of the wire formats. */
module Prelude {

  datatype Option<+T> = None | Some(value: T)

  datatype Result<+T, +E> = Ok(value: T) | Err(error: E) {
    predicate IsFailure() { Err? }

    function PropagateFailure<U>(): Result<U, E>
      requires Err?
    {
      Err(error)
    }

    function Extract(): T
      requires Ok?
    {
      value
    }
  }

  lemma Assoc<T>(a: seq<T>, b: seq<T>, c: seq<T>)
    ensures (a + b) + c == a + (b + c)
  {
  }

  type byte = b: int | 0 <= b < 256

  type u16 = n: int | 0 <= n < TWO_16

  const TWO_16: int := 0x1_0000
  const TWO_31: int := 0x8000_0000
  const TWO_32: int := 0x1_0000_0000

  /** `u16::to_be_bytes`. */
  function U16ToBe(n: int): (bs: seq<byte>)
    requires 0 <= n < TWO_16
    ensures |bs| == 2 && U16FromBe(bs) == n
  {
    [n / 256, n % 256]
  }

  /** `u16::from_be_bytes`. */
  function U16FromBe(bs: seq<byte>): (n: int)
    requires |bs| == 2
    ensures 0 <= n < TWO_16
  {
    var hi: int, lo: int := bs[0], bs[1];
    256 * hi + lo
  }

  /** `u32::to_be_bytes`: most significant half first. */
  function U32ToBe(n: int): (bs: seq<byte>)
    requires 0 <= n < TWO_32
    ensures |bs| == 4 && U32FromBe(bs) == n
  {
    var bs := U16ToBe(n / TWO_16) + U16ToBe(n % TWO_16);
    assert bs[..2] == U16ToBe(n / TWO_16) && bs[2..] == U16ToBe(n % TWO_16);
    bs
  }

  /** `u32::from_be_bytes`. */
  function U32FromBe(bs: seq<byte>): (n: int)
    requires |bs| == 4
    ensures 0 <= n < TWO_32
  {
    TWO_16 * U16FromBe(bs[..2]) + U16FromBe(bs[2..])
  }

  /** Big-endian: the first byte weighs most. */
  lemma U32Weights(bs: seq<byte>)
    requires |bs| == 4
    ensures var (a: int, b: int, c: int, d: int) := (bs[0], bs[1], bs[2], bs[3]);
            U32FromBe(bs) == 0x100_0000 * a + 0x1_0000 * b + 0x100 * c + d
  {
    assert bs[..2][0] == bs[0] && bs[..2][1] == bs[1] && bs[2..][0] == bs[2] && bs[2..][1] == bs[3];
  }

  /** Every four bytes are the encoding of the number they decode to. */
  lemma U32Canonical(bs: seq<byte>)
    requires |bs| == 4
    ensures U32ToBe(U32FromBe(bs)) == bs
  {
    var n := U32FromBe(bs);
    assert n / TWO_16 == U16FromBe(bs[..2]) && n % TWO_16 == U16FromBe(bs[2..]);
    assert U16ToBe(U16FromBe(bs[..2])) == bs[..2] && U16ToBe(U16FromBe(bs[2..])) == bs[2..];
    assert bs == bs[..2] + bs[2..];
  }
}

module Auth {
  datatype Identity = Identity(id: string, scopes: seq<string>, resources: map<string, seq<string>>)
}
