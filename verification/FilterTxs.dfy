/** The greedy transaction filter of the EVM execution client, with its 64-bit counters. */
module FilterTxs {
  import opened Common

  type length = n: int | 0 <= n < TWO63

  /** A transaction as the filter sees it: its length in bytes, and its gas if it decodes. */
  datatype Tx = Tx(size: length, gas: Option<uint64>)

  /** Zero means no limit; gas is only looked at when forced transactions are present. */
  datatype Limits = Limits(maxBytes: uint64, maxGas: uint64, forced: bool)

  datatype Status = FilterOK | FilterRemove | FilterPostpone

  /** Addition of two uint64 values. */
  function Add(a: uint64, b: uint64): uint64 {
    (a + b) % TWO64
  }

  function GasOf(tx: Tx, l: Limits): uint64 {
    if l.forced && tx.gas.Some? then tx.gas.value else 0
  }

  /** Empty, undecodable, or too big for any block. */
  predicate Removed(tx: Tx, l: Limits) {
    || tx.size == 0
    || (l.forced && (tx.gas.None? || (l.maxGas > 0 && tx.gas.value > l.maxGas)))
    || (l.maxBytes > 0 && tx.size > l.maxBytes)
  }

  predicate Exceeds(tx: Tx, l: Limits, bytes: uint64, gas: uint64) {
    || (l.maxBytes > 0 && Add(bytes, tx.size) > l.maxBytes)
    || (l.forced && l.maxGas > 0 && Add(gas, GasOf(tx, l)) > l.maxGas)
  }

  /** The counters of one pass. */
  datatype Counters = Counters(bytes: uint64, gas: uint64, full: bool)

  const ZERO := Counters(0, 0, false)

  function StatusOf(tx: Tx, l: Limits, c: Counters): Status {
    if Removed(tx, l) then FilterRemove
    else if c.full || Exceeds(tx, l, c.bytes, c.gas) then FilterPostpone
    else FilterOK
  }

  function Count(tx: Tx, l: Limits, c: Counters): Counters {
    match StatusOf(tx, l, c)
    case FilterRemove => c
    case FilterPostpone => c.(full := true)
    case FilterOK => Counters(Add(c.bytes, tx.size), Add(c.gas, GasOf(tx, l)), false)
  }

  /** The statuses of the rest of a batch, from the counters reached so far. */
  function FilterFrom(txs: seq<Tx>, l: Limits, c: Counters): (r: seq<Status>)
    ensures |r| == |txs|
    decreases |txs|
  {
    if txs == [] then [] else [StatusOf(txs[0], l, c)] + FilterFrom(txs[1..], l, Count(txs[0], l, c))
  }

  function Filter(txs: seq<Tx>, l: Limits): (r: seq<Status>)
    ensures |r| == |txs|
  {
    FilterFrom(txs, l, ZERO)
  }

  /** The loop body: one transaction against the running counters. */
  method FilterOne(tx: Tx, l: Limits, cumulativeBytes: uint64, cumulativeGas: uint64, limitReached: bool)
    returns (status: Status, bytes: uint64, gas: uint64, reached: bool)
    ensures var c := Counters(cumulativeBytes, cumulativeGas, limitReached);
            status == StatusOf(tx, l, c) && Counters(bytes, gas, reached) == Count(tx, l, c)
  {
    bytes, gas, reached := cumulativeBytes, cumulativeGas, limitReached;
    if tx.size == 0 {
      return FilterRemove, bytes, gas, reached;
    }
    var txGas: uint64 := 0;
    if l.forced {
      if tx.gas.None? {
        return FilterRemove, bytes, gas, reached;
      }
      txGas := tx.gas.value;
      if l.maxGas > 0 && txGas > l.maxGas {
        return FilterRemove, bytes, gas, reached;
      }
    }
    if l.maxBytes > 0 && tx.size > l.maxBytes {
      return FilterRemove, bytes, gas, reached;
    }
    if limitReached {
      return FilterPostpone, bytes, gas, reached;
    }
    if l.maxBytes > 0 && Add(cumulativeBytes, tx.size) > l.maxBytes {
      return FilterPostpone, bytes, gas, true;
    }
    if l.forced && l.maxGas > 0 && Add(cumulativeGas, txGas) > l.maxGas {
      return FilterPostpone, bytes, gas, true;
    }
    return FilterOK, Add(cumulativeBytes, tx.size), Add(cumulativeGas, txGas), false;
  }

  method FilterBatch(txs: seq<Tx>, l: Limits) returns (result: seq<Status>)
    ensures result == Filter(txs, l)
  {
    result := [];
    var bytes: uint64, gas: uint64, limitReached := 0, 0, false;
    for i := 0 to |txs|
      invariant |result| == i
      invariant Filter(txs, l) == result + FilterFrom(txs[i..], l, Counters(bytes, gas, limitReached))
    {
      assert txs[i..][1..] == txs[i + 1..];
      var status;
      status, bytes, gas, limitReached := FilterOne(txs[i], l, bytes, gas, limitReached);
      ghost var rest := FilterFrom(txs[i + 1..], l, Counters(bytes, gas, limitReached));
      assert result + ([status] + rest) == (result + [status]) + rest;
      result := result + [status];
    }
  }

  // ---------------------------------------------------------------- shape

  /** A transaction is removed for what it is, never for its neighbours, and the others are OKs followed by
      Postpones. */
  lemma {:induction false} StatusShape(txs: seq<Tx>, l: Limits, c: Counters)
    ensures var r := FilterFrom(txs, l, c);
            && (forall i :: 0 <= i < |txs| ==> (r[i] == FilterRemove <==> Removed(txs[i], l)))
            && (c.full ==> forall i :: 0 <= i < |txs| ==> r[i] != FilterOK)
            && (forall i, j :: 0 <= i < j < |txs| && r[i] == FilterPostpone ==> r[j] != FilterOK)
    decreases |txs|
  {
    if txs != [] {
      StatusShape(txs[1..], l, Count(txs[0], l, c));
    }
  }

  // ---------------------------------------------------------------- budgets

  /** The transactions with a given status, in order. */
  function Pick(txs: seq<Tx>, r: seq<Status>, s: Status): (p: seq<Tx>)
    requires |r| == |txs|
    ensures |p| <= |txs|
  {
    if txs == [] then []
    else if r[0] == s then [txs[0]] + Pick(txs[1..], r[1..], s)
    else Pick(txs[1..], r[1..], s)
  }

  function SumBytes(txs: seq<Tx>): nat {
    if txs == [] then 0 else txs[0].size + SumBytes(txs[1..])
  }

  function SumGas(txs: seq<Tx>, l: Limits): nat {
    if txs == [] then 0 else GasOf(txs[0], l) + SumGas(txs[1..], l)
  }

  function Accepted(txs: seq<Tx>, l: Limits): seq<Tx> {
    Pick(txs, Filter(txs, l), FilterOK)
  }

  function Postponed(txs: seq<Tx>, l: Limits): (p: seq<Tx>)
    ensures |p| <= |txs|
  {
    Pick(txs, Filter(txs, l), FilterPostpone)
  }

  lemma {:induction false} BudgetFrom(txs: seq<Tx>, l: Limits, c: Counters)
    ensures var a := Pick(txs, FilterFrom(txs, l, c), FilterOK);
            && (0 < l.maxBytes <= TWO63 && c.bytes <= l.maxBytes ==> c.bytes + SumBytes(a) <= l.maxBytes)
            && (l.forced && 0 < l.maxGas < TWO63 && c.gas <= l.maxGas ==> c.gas + SumGas(a, l) <= l.maxGas)
    decreases |txs|
  {
    if txs != [] {
      var rest := FilterFrom(txs[1..], l, Count(txs[0], l, c));
      assert FilterFrom(txs, l, c)[1..] == rest;
      BudgetFrom(txs[1..], l, Count(txs[0], l, c));
      if StatusOf(txs[0], l, c).FilterOK? {
        var a := Pick(txs[1..], rest, FilterOK);
        assert ([txs[0]] + a)[1..] == a;
      }
    }
  }

  /** Accepted transactions fit both budgets, for byte limits up to 2^63 and gas limits below 2^63. */
  lemma {:induction false} AcceptedFit(txs: seq<Tx>, l: Limits)
    ensures 0 < l.maxBytes <= TWO63 ==> SumBytes(Accepted(txs, l)) <= l.maxBytes
    ensures l.forced && 0 < l.maxGas < TWO63 ==> SumGas(Accepted(txs, l), l) <= l.maxGas
  {
    BudgetFrom(txs, l, ZERO);
  }

  /** What decodes has at least the `m` bytes of the shortest encoded transaction. */
  predicate Encoded(txs: seq<Tx>, m: nat) {
    forall i :: 0 <= i < |txs| && txs[i].gas.Some? ==> m <= txs[i].size
  }

  /** From 2^63 on the counter wraps: two of the shortest transactions with the full gas limit are both accepted. */
  lemma {:induction false} GasWraps(l: Limits, m: length)
    requires l.forced && l.maxGas >= TWO63 && m > 0 && (l.maxBytes == 0 || 2 * m <= l.maxBytes)
    ensures var tx := Tx(m, Some(l.maxGas));
            Accepted([tx, tx], l) == [tx, tx] && SumGas([tx, tx], l) > l.maxGas
  {
    var tx := Tx(m, Some(l.maxGas));
    var two, one := [tx, tx], [tx];
    assert two[1..] == one && one[1..] == [];
    assert Add(l.maxGas, l.maxGas) == 2 * l.maxGas - TWO64;
    assert Add(m, m) == 2 * m;
    assert FilterFrom(one, l, Counters(m, l.maxGas, false)) == [FilterOK];
    assert Filter(two, l) == [FilterOK, FilterOK];
    assert [FilterOK, FilterOK][1..] == [FilterOK];
    assert Pick(one, [FilterOK], FilterOK) == [tx];
  }

  /** With a byte limit below two of the shortest transactions, only one transaction is ever accepted. */
  lemma {:induction false} OneFits(txs: seq<Tx>, l: Limits, c: Counters, m: nat)
    requires l.forced && l.maxGas > 0 && 0 < l.maxBytes < 2 * m <= TWO63
    requires Encoded(txs, m) && c.bytes <= l.maxBytes && (c.bytes == 0 || m <= c.bytes)
    ensures var a := Pick(txs, FilterFrom(txs, l, c), FilterOK);
            if c.bytes > 0 then a == [] else SumGas(a, l) <= l.maxGas
    decreases |txs|
  {
    if txs != [] {
      PickFirst(txs, l, c, FilterOK);
      OneFits(txs[1..], l, Count(txs[0], l, c), m);
    }
  }

  /** The gas budget is respected on every input if and only if the limit is below 2^63, or the byte limit has no
      room for two transactions. */
  lemma {:induction false} GasBudgetExact(l: Limits, m: length)
    requires l.forced && l.maxGas > 0 && 0 < 2 * m <= TWO63
    ensures (forall txs :: Encoded(txs, m) ==> SumGas(Accepted(txs, l), l) <= l.maxGas)
            <==> l.maxGas < TWO63 || 0 < l.maxBytes < 2 * m
  {
    if l.maxGas < TWO63 || 0 < l.maxBytes < 2 * m {
      forall txs | Encoded(txs, m) ensures SumGas(Accepted(txs, l), l) <= l.maxGas {
        if 0 < l.maxBytes < 2 * m {
          OneFits(txs, l, ZERO, m);
        } else {
          AcceptedFit(txs, l);
        }
      }
    } else {
      GasWraps(l, m);
      var tx := Tx(m, Some(l.maxGas));
      assert Encoded([tx, tx], m) && SumGas(Accepted([tx, tx], l), l) > l.maxGas;
    }
  }

  /** Three transactions that fill a byte limit above 2^63 and then wrap the counter: lengths are below 2^63, so it
      takes three. */
  function Overfull(l: Limits): seq<Tx>
    requires l.maxBytes > TWO63
  {
    var half := l.maxBytes / 2;
    [Tx(half, Some(0)), Tx(if half == TWO63 - 1 then half else l.maxBytes - half, Some(0)), Tx(TWO63 - 1, Some(0))]
  }

  lemma {:induction false} BytesWrap(l: Limits)
    requires l.maxBytes > TWO63
    ensures Accepted(Overfull(l), l) == Overfull(l) && SumBytes(Overfull(l)) > l.maxBytes
  {
    var three := Overfull(l);
    var a: nat, b: nat, c: nat := three[0].size, three[1].size, three[2].size;
    var two, one := three[1..], three[2..];
    assert two[1..] == one && one[1..] == [];
    assert FilterFrom(one, l, Counters(a + b, 0, false)) == [FilterOK];
    assert FilterFrom(two, l, Counters(a, 0, false)) == [FilterOK] + [FilterOK];
    assert Filter(three, l) == [FilterOK, FilterOK, FilterOK];
    assert [FilterOK, FilterOK, FilterOK][1..] == [FilterOK, FilterOK] && [FilterOK, FilterOK][1..] == [FilterOK];
    assert Pick(one, [FilterOK], FilterOK) == one;
    assert Pick(two, [FilterOK, FilterOK], FilterOK) == two;
    assert SumBytes(one) == c && SumBytes(two) == b + c;
  }

  /** The byte budget is respected on every input if and only if the limit is at most 2^63. */
  lemma {:induction false} ByteBudgetExact(l: Limits, m: length)
    requires l.maxBytes > 0 && 0 < 2 * m <= TWO63
    ensures (forall txs :: Encoded(txs, m) ==> SumBytes(Accepted(txs, l)) <= l.maxBytes) <==> l.maxBytes <= TWO63
  {
    if l.maxBytes <= TWO63 {
      forall txs ensures SumBytes(Accepted(txs, l)) <= l.maxBytes {
        AcceptedFit(txs, l);
      }
    } else {
      BytesWrap(l);
      assert Encoded(Overfull(l), m);
    }
  }

  // ---------------------------------------------------------------- refiltering the postponed rest

  /** The transactions that are not removed. */
  function Survivors(txs: seq<Tx>, l: Limits): seq<Tx> {
    if txs == [] then []
    else if Removed(txs[0], l) then Survivors(txs[1..], l)
    else [txs[0]] + Survivors(txs[1..], l)
  }

  lemma {:induction false} PickFirst(txs: seq<Tx>, l: Limits, c: Counters, s: Status)
    requires txs != []
    ensures var rest := Pick(txs[1..], FilterFrom(txs[1..], l, Count(txs[0], l, c)), s);
            Pick(txs, FilterFrom(txs, l, c), s) == if StatusOf(txs[0], l, c) == s then [txs[0]] + rest else rest
  {
    assert FilterFrom(txs, l, c)[1..] == FilterFrom(txs[1..], l, Count(txs[0], l, c));
  }

  lemma {:induction false} FullAcceptsNone(txs: seq<Tx>, l: Limits, c: Counters)
    requires c.full
    ensures Pick(txs, FilterFrom(txs, l, c), FilterOK) == []
    decreases |txs|
  {
    if txs != [] {
      PickFirst(txs, l, c, FilterOK);
      FullAcceptsNone(txs[1..], l, Count(txs[0], l, c));
    }
  }

  /** Accepted and postponed transactions partition the survivors in order. */
  lemma {:induction false} PartitionFrom(txs: seq<Tx>, l: Limits, c: Counters)
    ensures var r := FilterFrom(txs, l, c);
            Pick(txs, r, FilterOK) + Pick(txs, r, FilterPostpone) == Survivors(txs, l)
    decreases |txs|
  {
    if txs != [] {
      var c' := Count(txs[0], l, c);
      PickFirst(txs, l, c, FilterOK);
      PickFirst(txs, l, c, FilterPostpone);
      PartitionFrom(txs[1..], l, c');
      if StatusOf(txs[0], l, c).FilterPostpone? {
        FullAcceptsNone(txs[1..], l, c');
      }
    }
  }

  /** Filtered from empty counters, something is accepted unless everything is removed. */
  lemma {:induction false} AcceptsSomething(txs: seq<Tx>, l: Limits)
    requires Survivors(txs, l) != []
    ensures Accepted(txs, l) != []
    decreases |txs|
  {
    PickFirst(txs, l, ZERO, FilterOK);
    if Removed(txs[0], l) {
      AcceptsSomething(txs[1..], l);
    }
  }

  lemma {:induction false} PostponedSurvive(txs: seq<Tx>, l: Limits, c: Counters)
    ensures var later := Pick(txs, FilterFrom(txs, l, c), FilterPostpone); Survivors(later, l) == later
    decreases |txs|
  {
    if txs != [] {
      PickFirst(txs, l, c, FilterPostpone);
      PostponedSurvive(txs[1..], l, Count(txs[0], l, c));
      var later := Pick(txs[1..], FilterFrom(txs[1..], l, Count(txs[0], l, c)), FilterPostpone);
      assert ([txs[0]] + later)[1..] == later;
    }
  }

  lemma {:induction false} PostponedShrinks(txs: seq<Tx>, l: Limits)
    ensures Postponed(txs, l) != [] ==> |Postponed(txs, l)| < |txs|
  {
    PartitionFrom(txs, l, ZERO);
    SurvivorsLength(txs, l);
    if Postponed(txs, l) != [] {
      AcceptsSomething(txs, l);
    }
  }

  lemma {:induction false} SurvivorsLength(txs: seq<Tx>, l: Limits)
    ensures |Survivors(txs, l)| <= |txs|
  {
    if txs != [] {
      SurvivorsLength(txs[1..], l);
    }
  }

  /** The batches that come out when the postponed rest is filtered again under the same limits, until none is left. */
  function Batches(txs: seq<Tx>, l: Limits): seq<seq<Tx>>
    decreases |txs|
  {
    PostponedShrinks(txs, l);
    if Postponed(txs, l) == [] then [Accepted(txs, l)]
    else [Accepted(txs, l)] + Batches(Postponed(txs, l), l)
  }

  function Flatten(bs: seq<seq<Tx>>): seq<Tx> {
    if bs == [] then [] else bs[0] + Flatten(bs[1..])
  }

  /** Refiltering terminates, and every transaction that is not removed is accepted exactly once, in original order,
      in a batch that fits the budgets. */
  lemma {:induction false} RefilterAcceptsAll(txs: seq<Tx>, l: Limits)
    ensures Flatten(Batches(txs, l)) == Survivors(txs, l)
    ensures forall b :: b in Batches(txs, l) && 0 < l.maxBytes <= TWO63 ==> SumBytes(b) <= l.maxBytes
    ensures forall b :: b in Batches(txs, l) && l.forced && 0 < l.maxGas < TWO63 ==> SumGas(b, l) <= l.maxGas
    decreases |txs|
  {
    PartitionFrom(txs, l, ZERO);
    PostponedSurvive(txs, l, ZERO);
    AcceptedFit(txs, l);
    var rest := Postponed(txs, l);
    if rest == [] {
      assert Batches(txs, l) == [Accepted(txs, l)] && [Accepted(txs, l)][1..] == [];
    } else {
      PostponedShrinks(txs, l);
      RefilterAcceptsAll(rest, l);
      assert Batches(txs, l)[1..] == Batches(rest, l);
    }
  }

  // ---------------------------------------------------------------- exactly which transactions are accepted

  /** A transaction alone in a batch is accepted if and only if it is not empty, decodes when forced transactions are
      present, and is within each limit, the limits themselves included; otherwise it is removed. */
  lemma {:induction false} AloneExactly(tx: Tx, l: Limits)
    ensures Filter([tx], l) ==
            if && tx.size > 0
               && (l.forced ==> tx.gas.Some? && (l.maxGas == 0 || tx.gas.value <= l.maxGas))
               && (l.maxBytes == 0 || tx.size <= l.maxBytes)
            then [FilterOK] else [FilterRemove]
  {
    assert [tx][1..] == [];
  }

  /** The transactions fit on top of the counters. */
  predicate Fit(txs: seq<Tx>, l: Limits, c: Counters) {
    && (l.maxBytes > 0 ==> c.bytes + SumBytes(txs) <= l.maxBytes)
    && (l.forced && l.maxGas > 0 ==> c.gas + SumGas(txs, l) <= l.maxGas)
  }

  predicate SmallLimits(l: Limits) {
    l.maxBytes <= TWO63 && l.maxGas < TWO63
  }

  lemma {:induction false} FullRefuses(txs: seq<Tx>, l: Limits, c: Counters, i: nat)
    requires c.full && i < |txs|
    ensures FilterFrom(txs, l, c)[i] != FilterOK
    decreases i
  {
    if i > 0 {
      FullRefuses(txs[1..], l, Count(txs[0], l, c), i - 1);
    }
  }

  lemma {:induction false} SurvivorsFirst(txs: seq<Tx>, l: Limits, i: nat)
    requires 0 < i <= |txs|
    ensures Survivors(txs[..i], l) ==
            (if Removed(txs[0], l) then [] else [txs[0]]) + Survivors(txs[1..][..i - 1], l)
  {
    assert txs[..i][1..] == txs[1..][..i - 1];
  }

  lemma {:induction false} FitSplits(tx: Tx, rest: seq<Tx>, l: Limits, c: Counters)
    requires SmallLimits(l) && Fit([], l, c) && !c.full && !Removed(tx, l)
    ensures StatusOf(tx, l, c).FilterOK? ==> (Fit([tx] + rest, l, c) <==> Fit(rest, l, Count(tx, l, c)))
    ensures StatusOf(tx, l, c).FilterOK? ==> Fit([], l, Count(tx, l, c)) && !Count(tx, l, c).full
    ensures StatusOf(tx, l, c).FilterPostpone? ==> !Fit([tx] + rest, l, c)
  {
    assert ([tx] + rest)[1..] == rest;
  }

  lemma {:induction false} GreedyFrom(txs: seq<Tx>, l: Limits, c: Counters, i: nat)
    requires SmallLimits(l) && Fit([], l, c) && !c.full && i < |txs|
    ensures FilterFrom(txs, l, c)[i] == FilterOK <==> !Removed(txs[i], l) && Fit(Survivors(txs[..i + 1], l), l, c)
    decreases i
  {
    var tx := txs[0];
    var c' := Count(tx, l, c);
    SurvivorsFirst(txs, l, i + 1);
    var rest := Survivors(txs[1..][..i], l);
    if Removed(tx, l) {
      assert [] + rest == rest;
      if i > 0 {
        GreedyFrom(txs[1..], l, c', i - 1);
      }
    } else {
      FitSplits(tx, rest, l, c);
      if i > 0 {
        if c'.full {
          FullRefuses(txs[1..], l, c', i - 1);
        } else {
          GreedyFrom(txs[1..], l, c', i - 1);
        }
      }
    }
  }

  /** The filter is greedy and no more cautious than the limits: for limits below 2^63 a transaction is accepted if and
      only if it is not removed and fits together with every transaction before it that is not removed. */
  lemma {:induction false} GreedyExactly(txs: seq<Tx>, l: Limits, i: nat)
    requires SmallLimits(l) && i < |txs|
    ensures Filter(txs, l)[i] == FilterOK <==>
              && !Removed(txs[i], l)
              && (l.maxBytes > 0 ==> SumBytes(Survivors(txs[..i + 1], l)) <= l.maxBytes)
              && (l.forced && l.maxGas > 0 ==> SumGas(Survivors(txs[..i + 1], l), l) <= l.maxGas)
  {
    GreedyFrom(txs, l, ZERO, i);
  }
}
