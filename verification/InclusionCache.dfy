/** The DA-inclusion cache, its snapshot bytes and its restore. */
module InclusionCache {
  import opened Common
  import opened LittleEndian

  datatype Entry = Entry(blockHeight: uint64, daHeight: uint64)

  const SNAPSHOT_ENTRY_SIZE := 16

  // ---------------------------------------------------------------- snapshot bytes

  function EncodeSnapshot(es: seq<Entry>): (bs: seq<byte>)
    ensures |bs| == SNAPSHOT_ENTRY_SIZE * |es|
  {
    if es == [] then []
    else Encode(es[0].blockHeight) + Encode(es[0].daHeight) + EncodeSnapshot(es[1..])
  }

  function Uint64At(bs: seq<byte>): uint64
    requires |bs| >= 8
  {
    Decode(bs[..8]).n
  }

  function DecodeEntries(bs: seq<byte>): (es: seq<Entry>)
    requires |bs| % SNAPSHOT_ENTRY_SIZE == 0
  {
    if bs == [] then [] else [Entry(Uint64At(bs), Uint64At(bs[8..]))] + DecodeEntries(bs[16..])
  }

  /** A length that is not a multiple of sixteen restores nothing. */
  function DecodeSnapshot(bs: seq<byte>): seq<Entry> {
    if |bs| % SNAPSHOT_ENTRY_SIZE != 0 then [] else DecodeEntries(bs)
  }

  /** Snapshot bytes round-trip for every entry list. */
  lemma {:induction false} SnapshotRoundTrip(es: seq<Entry>)
    ensures DecodeSnapshot(EncodeSnapshot(es)) == es
    ensures es != [] ==> EncodeSnapshot(es)[..16] == Encode(es[0].blockHeight) + Encode(es[0].daHeight)
  {
    if es != [] {
      var e := es[0];
      var bs := EncodeSnapshot(es);
      SnapshotRoundTrip(es[1..]);
      RoundTrip(e.blockHeight, []);
      RoundTrip(e.daHeight, []);
      assert bs[..8] == Encode(e.blockHeight);
      assert bs[8..][..8] == Encode(e.daHeight);
      assert bs[16..] == EncodeSnapshot(es[1..]);
    }
  }

  lemma {:induction false} EncodeAppend(a: seq<Entry>, e: Entry)
    ensures EncodeSnapshot(a + [e]) == EncodeSnapshot(a) + Encode(e.blockHeight) + Encode(e.daHeight)
  {
    if a == [] {
      assert (a + [e])[1..] == [];
    } else {
      assert (a + [e])[1..] == a[1..] + [e];
      EncodeAppend(a[1..], e);
    }
  }

  /** Writes the eight bytes of `n` at `off`. */
  method PutUint64(buf: array<byte>, off: nat, n: uint64)
    requires off + 8 <= buf.Length
    modifies buf
    ensures buf[..] == old(buf[..off]) + Encode(n) + old(buf[off + 8..])
  {
    var bs := Encode(n);
    for i := 0 to 8
      invariant buf[..off] == old(buf[..off]) && buf[off + 8..] == old(buf[off + 8..])
      invariant forall k :: 0 <= k < i ==> buf[off + k] == bs[k]
    {
      buf[off + i] := bs[i];
    }
    assert buf[..] == buf[..off] + buf[off..off + 8] + buf[off + 8..];
    assert buf[off..off + 8] == bs;
  }

  method WriteSnapshot(es: seq<Entry>) returns (buf: array<byte>)
    ensures fresh(buf) && buf[..] == EncodeSnapshot(es)
  {
    buf := new byte[SNAPSHOT_ENTRY_SIZE * |es|](_ => 0);
    for i := 0 to |es|
      invariant buf[..SNAPSHOT_ENTRY_SIZE * i] == EncodeSnapshot(es[..i])
    {
      var off := SNAPSHOT_ENTRY_SIZE * i;
      ghost var done := buf[..off];
      PutUint64(buf, off, es[i].blockHeight);
      assert buf[..off + 8] == done + Encode(es[i].blockHeight);
      PutUint64(buf, off + 8, es[i].daHeight);
      assert buf[..off + 16] == done + Encode(es[i].blockHeight) + Encode(es[i].daHeight);
      EncodeAppend(es[..i], es[i]);
      assert es[..i + 1] == es[..i] + [es[i]];
    }
    assert es[..|es|] == es && buf[..SNAPSHOT_ENTRY_SIZE * |es|] == buf[..];
  }

  // ---------------------------------------------------------------- placeholder keys

  const HEX_DIGITS := "0123456789abcdef"

  function Pow16(k: nat): (p: nat)
    ensures p > 0
  {
    if k == 0 then 1 else 16 * Pow16(k - 1)
  }

  /** The low `k` hexadecimal digits, most significant first. */
  function Hex(n: nat, k: nat): (s: string)
    ensures |s| == k
  {
    if k == 0 then [] else Hex(n / 16, k - 1) + [HEX_DIGITS[n % 16]]
  }

  function PlaceholderKey(prefix: string, height: uint64): string {
    prefix + "__h/" + Hex(height, 16)
  }

  lemma {:induction false} HexInjective(a: nat, b: nat, k: nat)
    requires a < Pow16(k) && b < Pow16(k) && Hex(a, k) == Hex(b, k)
    ensures a == b
    decreases k
  {
    if k > 0 {
      var s, t := Hex(a, k), Hex(b, k);
      assert s[..k - 1] == Hex(a / 16, k - 1) && t[..k - 1] == Hex(b / 16, k - 1);
      assert s[k - 1] == HEX_DIGITS[a % 16] && t[k - 1] == HEX_DIGITS[b % 16];
      DigitInjective(a % 16, b % 16);
      HexInjective(a / 16, b / 16, k - 1);
    }
  }

  lemma DigitInjective(a: nat, b: nat)
    requires a < 16 && b < 16 && HEX_DIGITS[a] == HEX_DIGITS[b]
    ensures a == b
  {
  }

  lemma Pow16Of16()
    ensures Pow16(16) == TWO64
  {
    assert Pow16(4) == 0x1_0000;
    assert Pow16(8) == 0x1_0000_0000;
    assert Pow16(12) == 0x1_0000_0000_0000;
  }

  /** Placeholder keys are injective in the height. */
  lemma {:induction false} PlaceholderInjective(prefix: string, a: uint64, b: uint64)
    ensures PlaceholderKey(prefix, a) == PlaceholderKey(prefix, b) <==> a == b
  {
    if PlaceholderKey(prefix, a) == PlaceholderKey(prefix, b) {
      var n := |prefix| + 4;
      assert PlaceholderKey(prefix, a)[n..] == Hex(a, 16) && PlaceholderKey(prefix, b)[n..] == Hex(b, 16);
      Pow16Of16();
      HexInjective(a, b, 16);
    }
  }

  /** And no placeholder is a content hash, which is written in hexadecimal digits. */
  lemma {:induction false} PlaceholderIsNoHash(prefix: string, height: uint64, hash: string)
    requires forall i :: 0 <= i < |hash| ==> hash[i] in HEX_DIGITS
    ensures PlaceholderKey(prefix, height) != hash
  {
    assert PlaceholderKey(prefix, height)[|prefix|] == '_';
  }

  // ---------------------------------------------------------------- lookups

  type Hashes = map<uint64, string>

  function ByHeight(hashByHeight: Hashes, daIncluded: map<string, uint64>, h: uint64): Option<uint64> {
    if h in hashByHeight && hashByHeight[h] in daIncluded then Some(daIncluded[hashByHeight[h]]) else None
  }

  ghost predicate Recorded(hashByHeight: Hashes, daIncluded: map<string, uint64>, da: uint64) {
    exists h :: ByHeight(hashByHeight, daIncluded, h) == Some(da)
  }

  /** The snapshot lists exactly the heights with a known DA height, each once. */
  ghost predicate Lists(es: seq<Entry>, hashByHeight: Hashes, daIncluded: map<string, uint64>) {
    && (forall i :: 0 <= i < |es| ==> ByHeight(hashByHeight, daIncluded, es[i].blockHeight) == Some(es[i].daHeight))
    && (forall i, j :: 0 <= i < j < |es| ==> es[i].blockHeight != es[j].blockHeight)
    && (forall h :: ByHeight(hashByHeight, daIncluded, h).Some? ==> HasHeight(es, h))
  }

  predicate HasHeight(es: seq<Entry>, h: uint64) {
    exists i :: 0 <= i < |es| && es[i].blockHeight == h
  }

  ghost predicate Bounded(daIncluded: map<string, uint64>, maxDAHeight: uint64) {
    forall k :: k in daIncluded ==> daIncluded[k] <= maxDAHeight
  }

  /** What a restored cache holds after the first `i` entries: a placeholder for each entry above the finalized
      height. */
  ghost predicate Holds(es: seq<Entry>, i: nat, f: uint64, prefix: string, hashByHeight: Hashes,
      daIncluded: map<string, uint64>)
    requires i <= |es|
  {
    && (forall h: uint64 :: h in hashByHeight <==> h > f && HasHeight(es[..i], h))
    && (forall h :: h in hashByHeight ==> hashByHeight[h] == PlaceholderKey(prefix, h))
    && (forall k {:trigger Placed(es[k], f, prefix, daIncluded)} :: 0 <= k < i ==> Placed(es[k], f, prefix, daIncluded))
  }

  predicate Placed(e: Entry, f: uint64, prefix: string, daIncluded: map<string, uint64>) {
    e.blockHeight > f ==>
      var key := PlaceholderKey(prefix, e.blockHeight);
      key in daIncluded && daIncluded[key] == e.daHeight
  }

  /** What restoring one entry makes of the two maps. */
  function RestoreOne(hashes: Hashes, da: map<string, uint64>, e: Entry, f: uint64, prefix: string)
    : (Hashes, map<string, uint64>)
  {
    var key := PlaceholderKey(prefix, e.blockHeight);
    if e.blockHeight <= f then (hashes, da) else (hashes[e.blockHeight := key], da[key := e.daHeight])
  }

  lemma {:induction false} HasHeightNext(es: seq<Entry>, i: nat, h: uint64)
    requires i < |es|
    ensures HasHeight(es[..i + 1], h) <==> HasHeight(es[..i], h) || h == es[i].blockHeight
  {
    if HasHeight(es[..i], h) {
      var k :| 0 <= k < |es[..i]| && es[..i][k].blockHeight == h;
      assert es[..i + 1][k].blockHeight == h;
    }
    assert es[..i + 1][i].blockHeight == es[i].blockHeight;
    if HasHeight(es[..i + 1], h) && h != es[i].blockHeight {
      var k :| 0 <= k < |es[..i + 1]| && es[..i + 1][k].blockHeight == h;
      assert es[..i][k].blockHeight == h;
    }
  }

  lemma {:induction false} HoldsNext(
      es: seq<Entry>, i: nat, f: uint64, prefix: string, hashByHeight: Hashes, daIncluded: map<string, uint64>)
    requires i < |es| && Holds(es, i, f, prefix, hashByHeight, daIncluded)
    requires DistinctHeights(es)
    ensures var r := RestoreOne(hashByHeight, daIncluded, es[i], f, prefix); Holds(es, i + 1, f, prefix, r.0, r.1)
  {
    forall h: uint64 ensures HasHeight(es[..i + 1], h) <==> HasHeight(es[..i], h) || h == es[i].blockHeight {
      HasHeightNext(es, i, h);
    }
    var r := RestoreOne(hashByHeight, daIncluded, es[i], f, prefix);
    forall k | 0 <= k < i + 1 ensures Placed(es[k], f, prefix, r.1) {
      PlaceholderInjective(prefix, es[k].blockHeight, es[i].blockHeight);
      assert k < i ==> Placed(es[k], f, prefix, daIncluded);
    }
  }

  predicate DistinctHeights(es: seq<Entry>) {
    forall a, b :: 0 <= a < b < |es| ==> es[a].blockHeight != es[b].blockHeight
  }

  /** The two maps after the first `i` entries. */
  function RestoreFirst(hashes: Hashes, da: map<string, uint64>, es: seq<Entry>, i: nat, f: uint64, prefix: string)
    : (Hashes, map<string, uint64>)
    requires i <= |es|
  {
    if i == 0 then (hashes, da)
    else
      var before := RestoreFirst(hashes, da, es, i - 1, f, prefix);
      RestoreOne(before.0, before.1, es[i - 1], f, prefix)
  }

  /** And of the maximum, to which skipped entries contribute too. */
  function MaxFirst(max: uint64, es: seq<Entry>, i: nat): uint64
    requires i <= |es|
  {
    if i == 0 then max
    else if es[i - 1].daHeight > MaxFirst(max, es, i - 1) then es[i - 1].daHeight
    else MaxFirst(max, es, i - 1)
  }

  /** It is the largest of them: none is above it, and it is one of them. */
  lemma {:induction false} MaxCovers(max: uint64, es: seq<Entry>, i: nat)
    requires i <= |es|
    ensures max <= MaxFirst(max, es, i) && forall k :: 0 <= k < i ==> es[k].daHeight <= MaxFirst(max, es, i)
    ensures MaxFirst(max, es, i) == max || exists k :: 0 <= k < i && es[k].daHeight == MaxFirst(max, es, i)
  {
    if i > 0 {
      MaxCovers(max, es, i - 1);
      if es[i - 1].daHeight <= MaxFirst(max, es, i - 1) != max {
        var k :| 0 <= k < i - 1 && es[k].daHeight == MaxFirst(max, es, i - 1);
        assert es[k].daHeight == MaxFirst(max, es, i);
      }
    }
  }

  lemma {:induction false} NothingHeld(es: seq<Entry>, f: uint64, prefix: string)
    ensures Holds(es, 0, f, prefix, map[], map[])
  {
    assert es[..0] == [];
  }

  lemma {:induction false} HoldsAfter(
      es: seq<Entry>, i: nat, f: uint64, prefix: string,
      before: (Hashes, map<string, uint64>), after: (Hashes, map<string, uint64>))
    requires i < |es| && DistinctHeights(es) && Holds(es, i, f, prefix, before.0, before.1)
    requires after == RestoreOne(before.0, before.1, es[i], f, prefix)
    ensures Holds(es, i + 1, f, prefix, after.0, after.1)
  {
    HoldsNext(es, i, f, prefix, before.0, before.1);
  }

  lemma {:induction false} RestoreHolds(es: seq<Entry>, i: nat, f: uint64, prefix: string)
    requires i <= |es| && DistinctHeights(es)
    ensures var r := RestoreFirst(map[], map[], es, i, f, prefix); Holds(es, i, f, prefix, r.0, r.1)
  {
    if i == 0 {
      NothingHeld(es, f, prefix);
    } else {
      var j := i - 1;
      RestoreHolds(es, j, f, prefix);
      HoldsAfter(es, j, f, prefix, RestoreFirst(map[], map[], es, j, f, prefix),
                 RestoreFirst(map[], map[], es, i, f, prefix));
    }
  }

  /** A restored cache answers as the saved one above the finalized height, and not at all at or below it. */
  lemma {:induction false} RestoredAnswers(
      es: seq<Entry>, f: uint64, prefix: string, hashes: Hashes, da: map<string, uint64>,
      hashes': Hashes, da': map<string, uint64>, h: uint64)
    requires Lists(es, hashes, da) && Holds(es, |es|, f, prefix, hashes', da')
    ensures ByHeight(hashes', da', h) == if h > f then ByHeight(hashes, da, h) else None
  {
    assert es[..|es|] == es;
    if h > f && HasHeight(es, h) {
      var i :| 0 <= i < |es| && es[i].blockHeight == h;
      assert ByHeight(hashes, da, es[i].blockHeight) == Some(es[i].daHeight);
      assert Placed(es[i], f, prefix, da');
    }
  }

  /** All lookups after restoring into an empty cache, and its maximum. */
  lemma {:induction false} RestoredAll(
      es: seq<Entry>, f: uint64, prefix: string, hashes: Hashes, da: map<string, uint64>)
    requires Lists(es, hashes, da)
    ensures var r := RestoreFirst(map[], map[], es, |es|, f, prefix);
            forall h: uint64 :: ByHeight(r.0, r.1, h) == if h > f then ByHeight(hashes, da, h) else None
    ensures forall h :: ByHeight(hashes, da, h).Some? ==> ByHeight(hashes, da, h).value <= MaxFirst(0, es, |es|)
    ensures MaxFirst(0, es, |es|) == 0 || Recorded(hashes, da, MaxFirst(0, es, |es|))
  {
    var r := RestoreFirst(map[], map[], es, |es|, f, prefix);
    RestoreHolds(es, |es|, f, prefix);
    forall h: uint64 ensures ByHeight(r.0, r.1, h) == if h > f then ByHeight(hashes, da, h) else None {
      RestoredAnswers(es, f, prefix, hashes, da, r.0, r.1, h);
    }
    MaxCovers(0, es, |es|);
    forall h | ByHeight(hashes, da, h).Some? ensures ByHeight(hashes, da, h).value <= MaxFirst(0, es, |es|) {
      var i :| 0 <= i < |es| && es[i].blockHeight == h;
    }
    if MaxFirst(0, es, |es|) != 0 {
      var k :| 0 <= k < |es| && es[k].daHeight == MaxFirst(0, es, |es|);
      assert ByHeight(hashes, da, es[k].blockHeight) == Some(MaxFirst(0, es, |es|));
    }
  }

  // ---------------------------------------------------------------- the cache

  class Cache {
    const prefix: string
    var hashes: set<string>
    var daIncluded: map<string, uint64>
    var hashByHeight: Hashes
    var maxDAHeight: uint64

    /** Every recorded DA height is at most the maximum. */
    ghost predicate Valid()
      reads this
    {
      Bounded(daIncluded, maxDAHeight)
    }

    function At(h: uint64): Option<uint64>
      reads this
    {
      ByHeight(hashByHeight, daIncluded, h)
    }

    constructor (prefix: string)
      ensures Valid() && this.prefix == prefix && hashes == {} && daIncluded == map[] && hashByHeight == map[]
              && maxDAHeight == 0
    {
      this.prefix := prefix;
      hashes, daIncluded, hashByHeight, maxDAHeight := {}, map[], map[], 0;
    }

    method SetSeen(hash: string, height: uint64)
      requires Valid()
      modifies this`hashes, this`hashByHeight
      ensures Valid() && hashes == old(hashes) + {hash} && hashByHeight == old(hashByHeight)[height := hash]
    {
      if height in hashByHeight && hashByHeight[height] == hash {
        hashes := hashes + {hashByHeight[height]};
        return;
      }
      hashes := hashes + {hash};
      hashByHeight := hashByHeight[height := hash];
    }

    /** The compare-and-swap loop: `rivals[i]` is what another writer raises the maximum to between the load and the
        swap of attempt `i`. It gives up after 1000 attempts, so fewer rivals than that cannot make it miss. */
    method SetMaxDAHeight(daHeight: uint64, rivals: seq<uint64>)
      modifies this`maxDAHeight
      ensures maxDAHeight >= old(maxDAHeight)
      ensures |rivals| < 1000 ==> maxDAHeight >= daHeight
      ensures rivals == [] ==> maxDAHeight == if daHeight > old(maxDAHeight) then daHeight else old(maxDAHeight)
    {
      for attempt := 0 to 1000
        invariant maxDAHeight >= old(maxDAHeight)
        invariant rivals == [] ==> attempt == 0 && maxDAHeight == old(maxDAHeight)
        invariant attempt <= |rivals|
      {
        var current := maxDAHeight;
        if daHeight <= current {
          return;
        }
        if attempt < |rivals| && rivals[attempt] > maxDAHeight {
          maxDAHeight := rivals[attempt];
        }
        if maxDAHeight == current {
          maxDAHeight := daHeight;
          return;
        }
      }
    }

    method SetDAIncluded(hash: string, daHeight: uint64, blockHeight: uint64)
      requires Valid()
      modifies this`daIncluded, this`hashByHeight, this`maxDAHeight
      ensures Valid() && At(blockHeight) == Some(daHeight) && hashByHeight == old(hashByHeight)[blockHeight := hash]
      ensures forall k :: k != hash ==>
                (k in daIncluded <==>
                 k in old(daIncluded) && !(blockHeight in old(hashByHeight) && old(hashByHeight)[blockHeight] == k))
      ensures forall k :: k != hash && k in daIncluded ==> daIncluded[k] == old(daIncluded)[k]
      ensures forall h :: h != blockHeight && h in old(hashByHeight) && old(hashByHeight)[h] != hash
                       && (blockHeight in old(hashByHeight) ==> old(hashByHeight)[h] != old(hashByHeight)[blockHeight])
                       ==> At(h) == old(At(h))
      ensures maxDAHeight == if daHeight > old(maxDAHeight) then daHeight else old(maxDAHeight)
    {
      if blockHeight in hashByHeight && hashByHeight[blockHeight] != hash {
        daIncluded := daIncluded - {hashByHeight[blockHeight]};
      }
      daIncluded := daIncluded[hash := daHeight];
      hashByHeight := hashByHeight[blockHeight := hash];
      SetMaxDAHeight(daHeight, []);
    }

    method RemoveDAIncluded(hash: string)
      requires Valid()
      modifies this`daIncluded
      ensures Valid() && daIncluded == old(daIncluded) - {hash}
    {
      daIncluded := daIncluded - {hash};
    }

    method DeleteAllForHeight(height: uint64)
      requires Valid()
      modifies this`hashes, this`daIncluded, this`hashByHeight
      ensures Valid() && height !in hashByHeight && At(height) == None
      ensures height !in old(hashByHeight) ==> daIncluded == old(daIncluded) && hashes == old(hashes)
      ensures height in old(hashByHeight) ==>
                && daIncluded == old(daIncluded) - {old(hashByHeight)[height]}
                && hashes == old(hashes) - {old(hashByHeight)[height]}
      ensures hashByHeight == old(hashByHeight) - {height}
    {
      if height !in hashByHeight {
        return;
      }
      var hash := hashByHeight[height];
      hashByHeight := hashByHeight - {height};
      hashes := hashes - {hash};
      daIncluded := daIncluded - {hash};
    }

    /** persistSnapshot: the map is walked in any order. Without a key prefix nothing is written. */
    method Save() returns (r: Option<seq<byte>>)
      ensures r.None? <==> prefix == ""
      ensures r.Some? ==> exists es :: r.value == EncodeSnapshot(es) && Lists(es, hashByHeight, daIncluded)
    {
      if |prefix| == 0 {
        return None;
      }
      var es := Collect(hashByHeight, daIncluded);
      var buf := WriteSnapshot(es);
      return Some(buf[..]);
    }

    /** RestoreFromStore, over whatever the cache holds; no stored snapshot is an empty one. Every entry raises the
        maximum, and the entries above the finalized height become placeholders. Without a key prefix nothing is
        read. */
    method Restore(bytes: seq<byte>, finalizedHeight: uint64)
      requires Valid()
      modifies this`daIncluded, this`hashByHeight, this`maxDAHeight
      ensures var es := if prefix == "" then [] else DecodeSnapshot(bytes);
              && (hashByHeight, daIncluded)
                 == RestoreFirst(old(hashByHeight), old(daIncluded), es, |es|, finalizedHeight, prefix)
              && maxDAHeight == MaxFirst(old(maxDAHeight), es, |es|)
      ensures Valid()
    {
      if |prefix| == 0 {
        return;
      }
      var entries := DecodeSnapshot(bytes);
      for i := 0 to |entries|
        invariant Valid()
        invariant (hashByHeight, daIncluded)
                  == RestoreFirst(old(hashByHeight), old(daIncluded), entries, i, finalizedHeight, prefix)
        invariant maxDAHeight == MaxFirst(old(maxDAHeight), entries, i)
      {
        var e := entries[i];
        SetMaxDAHeight(e.daHeight, []);
        if e.blockHeight > finalizedHeight {
          var placeholder := PlaceholderKey(prefix, e.blockHeight);
          daIncluded := daIncluded[placeholder := e.daHeight];
          hashByHeight := hashByHeight[e.blockHeight := placeholder];
        }
      }
    }
  }

  method Collect(hashByHeight: Hashes, daIncluded: map<string, uint64>) returns (es: seq<Entry>)
    ensures Lists(es, hashByHeight, daIncluded)
  {
    es := [];
    var todo := hashByHeight.Keys;
    while todo != {}
      invariant todo <= hashByHeight.Keys
      invariant forall i :: 0 <= i < |es| ==>
                  && es[i].blockHeight !in todo
                  && ByHeight(hashByHeight, daIncluded, es[i].blockHeight) == Some(es[i].daHeight)
      invariant forall i, j :: 0 <= i < j < |es| ==> es[i].blockHeight != es[j].blockHeight
      invariant forall h :: ByHeight(hashByHeight, daIncluded, h).Some? ==> h in todo || HasHeight(es, h)
      decreases |todo|
    {
      var h :| h in todo;
      todo := todo - {h};
      ghost var before := es;
      if hashByHeight[h] in daIncluded {
        es := es + [Entry(h, daIncluded[hashByHeight[h]])];
        assert es[|before|].blockHeight == h;
      }
      forall k | HasHeight(before, k) ensures HasHeight(es, k) {
        var i :| 0 <= i < |before| && before[i].blockHeight == k;
        assert es[i].blockHeight == k;
      }
    }
  }

  /** Save, restart, restore with finalized height `f`: every lookup above `f` answers as before, none at or below `f`,
      and the maximum is the largest saved DA height. A cache without a key prefix comes back empty. */
  method SaveAndRestore(c: Cache, f: uint64) returns (c': Cache)
    ensures fresh(c') && c'.Valid()
    ensures forall h: uint64 :: c'.At(h) == if h > f && c.prefix != "" then c.At(h) else None
    ensures c.prefix != "" ==> forall h :: c.At(h).Some? ==> c.At(h).value <= c'.maxDAHeight
    ensures c'.maxDAHeight == 0 || Recorded(c.hashByHeight, c.daIncluded, c'.maxDAHeight)
  {
    var saved := c.Save();
    c' := new Cache(c.prefix);
    if saved.Some? {
      ghost var es: seq<Entry> :| saved.value == EncodeSnapshot(es) && Lists(es, c.hashByHeight, c.daIncluded);
      SnapshotRoundTrip(es);
      RestoredAll(es, f, c.prefix, c.hashByHeight, c.daIncluded);
      c'.Restore(saved.value, f);
    } else {
      c'.Restore([], f);
    }
  }

  // ---------------------------------------------------------------- whole runs

  datatype Op =
    | Seen(hash: string, height: uint64)
    | Included(hash: string, da: uint64, height: uint64)
    | Removed(hash: string)
    | Deleted(height: uint64)
    | Loaded(bytes: seq<byte>, finalized: uint64)

  /** In every run, whatever bytes are restored on the way, each recorded DA height is at most the maximum, and the
      maximum never goes down; a recorded height raises it to itself or not at all. */
  method Drive(prefix: string, ops: seq<Op>) returns (daIncluded: map<string, uint64>, maxima: seq<uint64>)
    ensures |maxima| == |ops| + 1 && Bounded(daIncluded, maxima[|ops|])
    ensures forall i :: 0 <= i < |ops| ==> maxima[i] <= maxima[i + 1]
    ensures forall i :: 0 <= i < |ops| && ops[i].Included? ==> ops[i].da <= maxima[i + 1]
    ensures forall i :: 0 <= i < |ops| && maxima[i] < maxima[i + 1] ==>
              ops[i].Loaded? || (ops[i].Included? && maxima[i + 1] == ops[i].da)
  {
    var c := new Cache(prefix);
    maxima := [c.maxDAHeight];
    for i := 0 to |ops|
      invariant fresh(c) && c.Valid()
      invariant |maxima| == i + 1 && maxima[i] == c.maxDAHeight
      invariant forall k :: 0 <= k < i ==> maxima[k] <= maxima[k + 1]
      invariant forall k :: 0 <= k < i && ops[k].Included? ==> ops[k].da <= maxima[k + 1]
      invariant forall k :: 0 <= k < i && maxima[k] < maxima[k + 1] ==>
                  ops[k].Loaded? || (ops[k].Included? && maxima[k + 1] == ops[k].da)
    {
      match ops[i] {
        case Seen(hash, height) => c.SetSeen(hash, height);
        case Included(hash, da, height) => c.SetDAIncluded(hash, da, height);
        case Removed(hash) => c.RemoveDAIncluded(hash);
        case Deleted(height) => c.DeleteAllForHeight(height);
        case Loaded(bytes, finalized) =>
          MaxCovers(c.maxDAHeight, DecodeSnapshot(bytes), |DecodeSnapshot(bytes)|);
          c.Restore(bytes, finalized);
      }
      maxima := maxima + [c.maxDAHeight];
    }
    daIncluded := c.daIncluded;
  }
}
