/** The length prefix of a MessagePack frame: base-128 groups, least significant first, the top
    bit set on every byte but the last (`_to_varint`). */
module LengthPrefix {
  import opened Values

  type byte = b: int | 0 <= b < 256

  /** `_to_varint`'s result, by recursion on the value. */
  function Varint(n: nat): (bs: seq<byte>)
    ensures |bs| > 0
  {
    if n < 128 then [n] else [n % 128 + 128] + Varint(n / 128)
  }

  /** `_to_varint`: the loop takes seven bits at a time. */
  method ToVarint(n: nat) returns (buffer: seq<byte>)
    ensures buffer == Varint(n)
  {
    buffer := [];
    var value: nat := n;
    while true
      invariant buffer + Varint(value) == Varint(n)
      decreases value
    {
      var low: byte := value % 128;
      value := value / 128;
      if value != 0 {
        assert buffer + ([low + 128] + Varint(value)) == (buffer + [low + 128]) + Varint(value);
        buffer := buffer + [low + 128];
      } else {
        buffer := buffer + [low];
        return;
      }
    }
  }

  /** The protocol's reader for such a prefix: the number and the number of bytes it took. */
  function ReadVarint(bs: seq<byte>): Option<(nat, nat)> {
    if bs == [] then None
    else if bs[0] < 128 then Some((bs[0], 1))
    else
      var rest := ReadVarint(bs[1..]);
      if rest.None? then None else Some((bs[0] - 128 + 128 * rest.value.0, 1 + rest.value.1))
  }

  /** Reading undoes writing, whatever follows the prefix. */
  lemma {:induction false} ReadVarintOf(n: nat, rest: seq<byte>)
    ensures ReadVarint(Varint(n) + rest) == Some((n, |Varint(n)|))
  {
    if n >= 128 {
      ReadVarintOf(n / 128, rest);
      assert (Varint(n) + rest)[1..] == Varint(n / 128) + rest;
    }
  }

  /** No prefix of a number starts the prefix of another: framing is unambiguous. */
  lemma PrefixFree(m: nat, n: nat)
    requires Varint(m) <= Varint(n)
    ensures m == n
  {
    ReadVarintOf(n, []);
    ReadVarintOf(m, Varint(n)[|Varint(m)|..]);
    assert Varint(m) + Varint(n)[|Varint(m)|..] == Varint(n) == Varint(n) + [];
  }

  /** The top bit marks every byte but the last. */
  lemma {:induction false} TopBits(n: nat, i: nat)
    requires i < |Varint(n)|
    ensures Varint(n)[i] >= 128 <==> i < |Varint(n)| - 1
  {
    if n >= 128 && i > 0 {
      TopBits(n / 128, i - 1);
    }
  }

  function Pow128(k: nat): nat {
    if k == 0 then 1 else 128 * Pow128(k - 1)
  }

  /** `k` bytes are enough exactly for the numbers below 128 to the power `k`. */
  lemma {:induction false} LengthBound(n: nat, k: nat)
    requires k >= 1
    ensures |Varint(n)| <= k <==> n < Pow128(k)
  {
    if k == 1 {
      assert Pow128(1) == 128 * Pow128(0);
    } else if n >= 128 {
      LengthBound(n / 128, k - 1);
    } else {
      PowAtLeast(k);
    }
  }

  lemma {:induction false} PowAtLeast(k: nat)
    requires k >= 1
    ensures Pow128(k) >= 128
  {
    if k > 1 {
      PowAtLeast(k - 1);
    }
  }

  /** Conversely, a byte string the reader consumes whole is the prefix of the number read, unless
      it is padded with a zero group. */
  lemma {:induction false} VarintOfRead(bs: seq<byte>)
    requires ReadVarint(bs).Some? && ReadVarint(bs).value.1 == |bs|
    ensures bs == Varint(ReadVarint(bs).value.0) <==> |bs| == 1 || bs[|bs| - 1] != 0
  {
    var n := ReadVarint(bs).value.0;
    if bs[0] >= 128 {
      var m := ReadVarint(bs[1..]).value.0;
      VarintOfRead(bs[1..]);
      assert n / 128 == m && n % 128 == bs[0] - 128;
      if |bs| > 2 || bs[1] != 0 {
        NonZeroGroup(bs[1..]);
      }
      if bs == Varint(n) {
        assert bs[1..] == Varint(n)[1..];
      }
    }
  }

  lemma {:induction false} NonZeroGroup(bs: seq<byte>)
    requires ReadVarint(bs).Some? && ReadVarint(bs).value.1 == |bs|
    ensures bs[|bs| - 1] != 0 ==> ReadVarint(bs).value.0 > 0
  {
    if bs[0] >= 128 {
      NonZeroGroup(bs[1..]);
    }
  }
}
