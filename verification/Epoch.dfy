/** Epoch arithmetic over DA heights, with the 64-bit arithmetic of the source. */
module Epoch {
  import opened Common

  function CalculateEpochNumber(daHeight: uint64, daStartHeight: uint64, daEpochSize: uint64): uint64 {
    if daHeight < daStartHeight then 0
    else if daEpochSize == 0 then 1
    else
      DivLess(daHeight - daStartHeight, daEpochSize);
      ((daHeight - daStartHeight) / daEpochSize + 1) % TWO64
  }

  /** Start, end and number of the epoch of a height. */
  datatype Bounds = Bounds(start: uint64, end: uint64, num: uint64)

  function CalculateEpochBoundaries(daHeight: uint64, daStartHeight: uint64, daEpochSize: uint64): Bounds {
    var num := CalculateEpochNumber(daHeight, daStartHeight, daEpochSize);
    if daEpochSize == 0 then Bounds(daStartHeight, daStartHeight, num)
    else if daHeight < daStartHeight then Bounds(daStartHeight, (daStartHeight + daEpochSize - 1) % TWO64, num)
    else Bounds((daStartHeight + (num - 1) * daEpochSize) % TWO64, (daStartHeight + num * daEpochSize - 1) % TWO64, num)
  }

  // ---------------------------------------------------------------- division

  lemma {:induction false} MulAtLeast(p: nat, z: nat)
    requires z > 0
    ensures p * z >= p
  {
    assert p * z == p * (z - 1) + p;
  }

  lemma {:induction false} MulMono(p: nat, q: nat, z: nat)
    requires p < q
    ensures p * z + z <= q * z
  {
    assert q * z == p * z + (q - p) * z;
    MulAtLeast(z, q - p);
    assert z * (q - p) == (q - p) * z;
  }

  lemma {:induction false} DivLess(a: nat, z: nat)
    requires z > 0
    ensures 0 <= a / z <= a
    ensures a / z * z <= a < a / z * z + z
  {
    var q, r := a / z, a % z;
    assert a == q * z + r && 0 <= r < z;
    MulAtLeast(q, z);
  }

  lemma {:induction false} DivUnique(a: nat, z: nat, q: nat)
    requires z > 0 && q * z <= a < q * z + z
    ensures a / z == q
  {
    DivLess(a, z);
    var p := a / z;
    if p < q {
      MulMono(p, q, z);
    } else if p > q {
      MulMono(q, p, z);
    }
  }

  // ---------------------------------------------------------------- the epochs tile the heights

  /** The first height of the epoch of `h`, as a number. */
  function StartOf(h: nat, s: nat, z: nat): (r: nat)
    requires s <= h && z > 0
    ensures s <= r <= h < r + z
  {
    DivLess(h - s, z);
    s + (h - s) / z * z
  }

  /** The end of the epoch fits into 64 bits. */
  predicate NoOverflow(h: nat, s: nat, z: nat)
    requires s <= h && z > 0
  {
    StartOf(h, s, z) + z - 1 < TWO64
  }

  lemma {:induction false} ModSmall(x: nat)
    requires x < TWO64
    ensures x % TWO64 == x
  {
  }

  /** The epoch number wraps for one input only; start and end come out right there too. */
  lemma {:induction false} NumberWraps(h: uint64, s: uint64, z: uint64)
    requires s <= h && z > 0 && (h - s) / z + 1 == TWO64
    ensures z == 1 && s == 0 && h == TWO64 - 1
  {
    DivLess(h - s, z);
  }

  lemma {:induction false} Boundaries(h: uint64, s: uint64, z: uint64)
    requires s <= h && z > 0
    ensures var b := CalculateEpochBoundaries(h, s, z);
            && b.start == StartOf(h, s, z) && b.end == (StartOf(h, s, z) + z - 1) % TWO64
            && b.num == ((h - s) / z + 1) % TWO64
  {
    DivLess(h - s, z);
    var q := (h - s) / z;
    if q + 1 == TWO64 {
      NumberWraps(h, s, z);
    } else {
      ModSmall(q + 1);
      ModSmall(StartOf(h, s, z));
      assert (q + 1) * z == q * z + z;
      assert s + (q + 1) * z - 1 == StartOf(h, s, z) + z - 1;
    }
  }

  /** The number is 0 exactly below the start height, where the boundaries are those of the first epoch, and where it
      wraps; an epoch size of 0 is one epoch of the start height alone. */
  lemma {:induction false} BeforeTheStart(h: uint64, s: uint64, z: uint64)
    ensures var b := CalculateEpochBoundaries(h, s, z);
            && (b.num == 0 <==> h < s || (z == 1 && s == 0 && h == TWO64 - 1))
            && (h < s && z > 0 ==> b.start == s && b.end == CalculateEpochBoundaries(s, s, z).end)
            && (z == 0 ==> b.start == b.end == s && (h >= s ==> b.num == 1))
  {
    if z > 0 {
      DivUnique(0, z, 0);
      Boundaries(s, s, z);
      if s <= h {
        Boundaries(h, s, z);
        DivLess(h - s, z);
        if (h - s) / z + 1 == TWO64 {
          NumberWraps(h, s, z);
        } else {
          ModSmall((h - s) / z + 1);
        }
      }
      if z == 1 && s == 0 && h == TWO64 - 1 {
        DivUnique(h, 1, h);
      }
    }
  }

  /** The boundaries enclose the height exactly when the end of its epoch does not overflow. */
  lemma {:induction false} BoundariesEnclose(h: uint64, s: uint64, z: uint64)
    requires s <= h && z > 0
    ensures var b := CalculateEpochBoundaries(h, s, z);
            b.start <= h <= b.end <==> NoOverflow(h, s, z)
  {
    Boundaries(h, s, z);
    var e := StartOf(h, s, z) + z - 1;
    if e >= TWO64 {
      assert e % TWO64 == e - TWO64;
    } else {
      ModSmall(e);
    }
  }

  /** The last height of the 64-bit range, in an epoch of ten heights that would end above it: it wraps to 3. */
  lemma {:induction false} LastEpochOverflows()
    ensures var b := CalculateEpochBoundaries(TWO64 - 1, 0, 10);
            b.start == TWO64 - 6 && b.end == 3
  {
    DivUnique(TWO64 - 1, 10, 0x1999_9999_9999_9999);
  }

  /** Two heights share an epoch exactly when one lies within the other's boundaries; the next epoch starts right
      after. */
  lemma {:induction false} EpochsTile(h: nat, k: nat, s: nat, z: nat)
    requires s <= h && s <= k && z > 0
    ensures StartOf(h, s, z) == StartOf(k, s, z) <==> StartOf(h, s, z) <= k < StartOf(h, s, z) + z
    ensures StartOf(StartOf(h, s, z) + z, s, z) == StartOf(h, s, z) + z
  {
    var q := (h - s) / z;
    DivLess(h - s, z);
    DivLess(k - s, z);
    if StartOf(h, s, z) <= k < StartOf(h, s, z) + z {
      DivUnique(k - s, z, q);
    }
    assert (q + 1) * z == q * z + z;
    DivUnique((q + 1) * z, z, q + 1);
  }
}
