/** Fixed-width little-endian integers, as encoding/binary writes them. */
module LittleEndian {
  import opened Common

  type byte = n: int | 0 <= n < 256

  function Pow256(k: nat): (p: nat)
    ensures p > 0
  {
    if k == 0 then 1 else 256 * Pow256(k - 1)
  }

  /** The `k` low bytes of `n`, least significant first. */
  function Put(n: nat, k: nat): (bs: seq<byte>)
    ensures |bs| == k
  {
    if k == 0 then [] else [n % 256] + Put(n / 256, k - 1)
  }

  function Get(bs: seq<byte>): nat {
    if bs == [] then 0 else bs[0] + 256 * Get(bs[1..])
  }

  lemma {:induction false} GetPut(n: nat, k: nat)
    requires n < Pow256(k)
    ensures Get(Put(n, k)) == n
    decreases k
  {
    if k > 0 {
      GetPut(n / 256, k - 1);
    }
  }

  lemma {:induction false} LowByte(b: byte, high: nat)
    ensures (b + 256 * high) % 256 == b && (b + 256 * high) / 256 == high
  {
  }

  lemma {:induction false} PutGet(bs: seq<byte>)
    ensures Put(Get(bs), |bs|) == bs
    decreases |bs|
  {
    if bs != [] {
      var high := Get(bs[1..]);
      PutGet(bs[1..]);
      LowByte(bs[0], high);
      assert Put(Get(bs), |bs|) == [bs[0]] + bs[1..];
    }
  }

  /** encodeHeight / binary.LittleEndian.PutUint64. */
  function Encode(n: uint64): (bs: seq<byte>)
    ensures |bs| == 8
  {
    Put(n, 8)
  }

  datatype Decoded = Decoded(n: uint64) | BadLength

  lemma GetBound(bs: seq<byte>)
    ensures Get(bs) < Pow256(|bs|)
  {
    if bs != [] {
      GetBound(bs[1..]);
    }
  }

  lemma Pow256Of8()
    ensures Pow256(8) == TWO64
  {
    assert Pow256(4) == 0x1_0000_0000;
    assert Pow256(8) == 256 * (256 * (256 * (256 * Pow256(4))));
  }

  /** decodeHeight: exactly eight bytes, or an error. */
  function Decode(bs: seq<byte>): Decoded {
    if |bs| != 8 then BadLength
    else
      GetBound(bs); Pow256Of8();
      Decoded(Get(bs))
  }

  /** Every height survives the trip through its eight bytes, lowest first, and no two byte strings give one height. */
  lemma {:induction false} RoundTrip(n: uint64, bs: seq<byte>)
    ensures Encode(n)[0] == n % 256
    ensures Decode(Encode(n)) == Decoded(n)
    ensures Decode(bs) == Decoded(n) <==> bs == Encode(n)
  {
    Pow256Of8();
    GetPut(n, 8);
    if |bs| == 8 {
      PutGet(bs);
    }
  }
}
