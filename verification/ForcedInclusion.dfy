/** Forced inclusion: blobs of the DA layer are delivered epoch by epoch, through a prefetch cache. */
module ForcedInclusion {
  import opened Common
  import opened Epoch

  type Blob = seq<nat>

  /** What the DA layer holds at a height. */
  datatype DABlock = DABlock(blobs: seq<Blob>, time: nat)

  type DA = nat -> DABlock

  datatype BlockData = BlockData(blobs: seq<Blob>, time: nat)

  /** How one Retrieve ends; a height without blobs is reported as not found, with its timestamp. */
  datatype Status = Available | Future | Failed

  datatype Event = Event(time: nat, start: nat, end: nat, txs: seq<Blob>)

  /** `Endless`: the loop over the heights of an epoch that ends at 2^64 - 1 does not end. */
  datatype Retrieval = Retrieved(event: Event) | NotConfigured | BeforeStart | NotYet | Endless

  function NonEmpty(bs: seq<Blob>): seq<Blob> {
    if bs == [] then [] else if bs[0] == [] then NonEmpty(bs[1..]) else [bs[0]] + NonEmpty(bs[1..])
  }

  lemma {:induction false} NonEmptyTwice(bs: seq<Blob>)
    ensures NonEmpty(NonEmpty(bs)) == NonEmpty(bs)
  {
    if bs != [] {
      NonEmptyTwice(bs[1..]);
    }
  }

  lemma {:induction false} NonEmptySnoc(bs: seq<Blob>, b: Blob)
    ensures NonEmpty(bs + [b]) == if b == [] then NonEmpty(bs) else NonEmpty(bs) + [b]
  {
    if bs == [] {
      assert (bs + [b])[1..] == [];
    } else {
      assert (bs + [b])[1..] == bs[1..] + [b];
      NonEmptySnoc(bs[1..], b);
    }
  }

  /** The non-empty blobs of the heights lo, ..., hi - 1, in order. */
  function Collected(da: DA, lo: nat, hi: nat): seq<Blob>
    decreases hi
  {
    if hi <= lo then [] else Collected(da, lo, hi - 1) + NonEmpty(da(hi - 1).blobs)
  }

  function MaxTime(da: DA, lo: nat, hi: nat): nat
    decreases hi
  {
    if hi <= lo then 0
    else
      var m := MaxTime(da, lo, hi - 1);
      if da(hi - 1).time > m then da(hi - 1).time else m
  }

  lemma {:induction false} CollectedSplit(da: DA, lo: nat, mid: nat, hi: nat)
    requires lo <= mid <= hi
    ensures Collected(da, lo, hi) == Collected(da, lo, mid) + Collected(da, mid, hi)
    decreases hi
  {
    if mid < hi {
      CollectedSplit(da, lo, mid, hi - 1);
    }
  }

  /** The latest of the times: none of the heights is later, and one of them has it. */
  lemma {:induction false} MaxTimeIsLatest(da: DA, lo: nat, hi: nat)
    ensures forall h :: lo <= h < hi ==> da(h).time <= MaxTime(da, lo, hi)
    ensures lo < hi ==> exists h :: lo <= h < hi && da(h).time == MaxTime(da, lo, hi)
    decreases hi
  {
    if lo < hi {
      MaxTimeIsLatest(da, lo, hi - 1);
      if lo < hi - 1 && da(hi - 1).time <= MaxTime(da, lo, hi - 1) {
        var h :| lo <= h < hi - 1 && da(h).time == MaxTime(da, lo, hi - 1);
        assert da(h).time == MaxTime(da, lo, hi);
      } else {
        assert da(hi - 1).time == MaxTime(da, lo, hi);
      }
    }
  }

  /** What is left of the DA layer when only some heights can be read. */
  function Masked(da: DA, readable: set<nat>): DA {
    h => if h in readable then da(h) else DABlock([], 0)
  }

  lemma {:induction false} AllReadable(da: DA, readable: set<nat>, lo: nat, hi: nat)
    requires forall h :: lo <= h < hi ==> h in readable
    ensures Collected(Masked(da, readable), lo, hi) == Collected(da, lo, hi)
    ensures MaxTime(Masked(da, readable), lo, hi) == MaxTime(da, lo, hi)
    decreases hi
  {
    if lo < hi {
      AllReadable(da, readable, lo, hi - 1);
    }
  }

  /** A block shows what the DA layer holds, possibly without its empty blobs. */
  predicate Shows(b: BlockData, d: DABlock) {
    NonEmpty(b.blobs) == NonEmpty(d.blobs) && b.time == d.time
  }

  ghost predicate AllShow(m: map<nat, BlockData>, da: DA) {
    forall h :: h in m ==> Shows(m[h], da(h))
  }

  // ---------------------------------------------------------------- the steps of one epoch retrieval

  /** Cache hits, and the missing heights in order. */
  method SplitHeights(lo: nat, hi: nat, cache: map<nat, BlockData>)
    returns (cached: map<nat, BlockData>, missing: seq<nat>)
    requires lo <= hi
    ensures cached == map h | h in cache && lo <= h <= hi :: cache[h]
    ensures forall h :: h in missing <==> lo <= h <= hi && h !in cache
  {
    cached, missing := map[], [];
    var h := lo;
    while h <= hi
      invariant lo <= h <= hi + 1
      invariant forall k :: k in cached <==> k in cache && lo <= k < h
      invariant forall k :: k in cached ==> cached[k] == cache[k]
      invariant forall k :: k in missing <==> lo <= k < h && k !in cache
    {
      if h in cache {
        cached := cached[h := cache[h]];
      } else {
        missing := missing + [h];
      }
      h := h + 1;
    }
  }

  /** Synchronous retrieval of the missing heights: a future height ends it, failures are collected. */
  method FetchMissing(da: DA, missing: seq<nat>, status: nat -> Status)
    returns (future: bool, fetched: map<nat, BlockData>, failed: bool)
    ensures future <==> exists h :: h in missing && status(h).Future?
    ensures !future ==> (failed <==> exists h :: h in missing && status(h).Failed?)
    ensures !future ==> forall h :: h in fetched <==> h in missing && status(h).Available?
    ensures AllShow(fetched, da)
  {
    fetched, failed := map[], false;
    for i := 0 to |missing|
      invariant forall k :: 0 <= k < i ==> !status(missing[k]).Future?
      invariant failed <==> exists k :: 0 <= k < i && status(missing[k]).Failed?
      invariant forall h :: h in fetched <==> exists k :: 0 <= k < i && missing[k] == h && status(h).Available?
      invariant AllShow(fetched, da)
    {
      var h := missing[i];
      match status(h) {
        case Future => return true, fetched, failed;
        case Failed => failed := true;
        case Available => fetched := fetched[h := BlockData(da(h).blobs, da(h).time)];
      }
    }
    return false, fetched, failed;
  }

  /** All blocks there are, in height order. */
  method Assemble(da: DA, lo: nat, hi: nat, cached: map<nat, BlockData>, fetched: map<nat, BlockData>)
    returns (txs: seq<Blob>, time: nat)
    requires lo <= hi && AllShow(cached, da) && AllShow(fetched, da)
    ensures var readable := Masked(da, cached.Keys + fetched.Keys);
            txs == Collected(readable, lo, hi + 1) && time == MaxTime(readable, lo, hi + 1)
  {
    txs, time := [], 0;
    var h := lo;
    ghost var readable := Masked(da, cached.Keys + fetched.Keys);
    while h <= hi
      invariant lo <= h <= hi + 1
      invariant txs == Collected(readable, lo, h) && time == MaxTime(readable, lo, h)
    {
      if h in cached || h in fetched {
        var block := if h in cached then cached[h] else fetched[h];
        txs := AppendBlobs(txs, block.blobs);
        if block.time > time {
          time := block.time;
        }
      }
      h := h + 1;
    }
  }

  method AppendBlobs(txs: seq<Blob>, blobs: seq<Blob>) returns (r: seq<Blob>)
    ensures r == txs + NonEmpty(blobs)
  {
    r := txs;
    for i := 0 to |blobs|
      invariant r == txs + NonEmpty(blobs[..i])
    {
      assert blobs[..i + 1] == blobs[..i] + [blobs[i]];
      NonEmptySnoc(blobs[..i], blobs[i]);
      if |blobs[i]| > 0 {
        r := r + [blobs[i]];
      }
    }
    assert blobs[..|blobs|] == blobs;
  }

  // ---------------------------------------------------------------- the retriever

  /** An event brings the blobs of its whole epoch, or nothing for a single height. */
  predicate WholeOrNothing(da: DA, e: Event, h: nat, b: Bounds) {
    || (e.start == h == e.end && e.txs == [])
    || (h == b.end && e.start == b.start && e.end == b.end && e.txs == Collected(da, b.start, b.end + 1)
        && e.time == MaxTime(da, b.start, b.end + 1))
  }

  /** Twice the epoch size in 64 bits, or 10 if that is 0. */
  function Window(daEpochSize: uint64): uint64 {
    var twice := (daEpochSize * 2) % TWO64;
    if twice == 0 then 10 else twice
  }

  /** The prefetch window covers an epoch if and only if twice the epoch size does not wrap, or loses only one
      height. It is 10 for the epoch sizes that leave nothing of it. */
  lemma {:induction false} WindowCovers(z: uint64)
    ensures Window(z) == if z == 0 || z == TWO63 then 10 else if z < TWO63 then 2 * z else 2 * z - TWO64
    ensures z <= Window(z) + 1 <==> z < TWO63 || z == TWO64 - 1
  {
    assert z >= TWO63 ==> (z * 2) % TWO64 == z * 2 - TWO64;
  }

  /** The cache without the blocks below `height - window`. */
  function Cleaned(cache: map<nat, BlockData>, height: uint64, window: uint64): map<nat, BlockData> {
    if height < window then cache else map h | h in cache && h >= height - window :: cache[h]
  }

  /** Cleaning up at the end of the epoch that starts at `start` drops none of its heights, whatever is cached. */
  ghost predicate CleanupKeeps(start: nat, z: nat, window: uint64)
    requires 0 < z && start + z <= TWO64
  {
    forall cache: map<nat, BlockData>, h ::
      start <= h && h in cache ==> h in Cleaned(cache, start + z - 1, window)
  }

  /** The cleanup never drops a height of the epoch being assembled if and only if the epoch size is below 2^63 or
      2^64 - 1: otherwise twice the size wraps to a window that does not reach the start of the epoch. */
  lemma {:induction false} CleanupExact(start: nat, z: uint64)
    requires 0 < z && start + z <= TWO64
    ensures CleanupKeeps(start, z, Window(z)) <==> z < TWO63 || z == TWO64 - 1
  {
    WindowCovers(z);
    if z > Window(z) + 1 {
      var cache: map<nat, BlockData> := map[start := BlockData([], 0)];
      assert start !in Cleaned(cache, start + z - 1, Window(z));
    }
  }

  /** Some height of the epoch is neither cached nor available yet. */
  ghost predicate MissingFuture(b: Bounds, cache: map<nat, BlockData>, status: nat -> Status) {
    exists h :: b.start <= h <= b.end && h !in cache && status(h).Future?
  }

  /** Some height of the epoch is not cached and cannot be retrieved. */
  ghost predicate MissingFailed(b: Bounds, cache: map<nat, BlockData>, status: nat -> Status) {
    exists h :: b.start <= h <= b.end && h !in cache && status(h).Failed?
  }

  /** The event of a whole epoch. */
  function WholeEpoch(da: DA, b: Bounds): Event {
    Event(MaxTime(da, b.start, b.end + 1), b.start, b.end, Collected(da, b.start, b.end + 1))
  }

  /** The heights of an epoch that are cached or can be retrieved. */
  function Readable(b: Bounds, cache: map<nat, BlockData>, status: nat -> Status): set<nat> {
    set h: nat | b.start <= h <= b.end && (h in cache || status(h).Available?)
  }

  /** The event of an epoch with a failed retrieval: nothing, for its last height, at the latest of the times read. */
  function FailedEpoch(da: DA, b: Bounds, readable: set<nat>): Event {
    Event(MaxTime(Masked(da, readable), b.start, b.end + 1), b.end, b.end, [])
  }

  /** Both parts of the retrieval together hold exactly the readable heights: all of them, if no retrieval fails. */
  lemma {:induction false} TogetherReadable(
      b: Bounds, cache: map<nat, BlockData>, status: nat -> Status, cached: set<nat>, missing: seq<nat>,
      fetched: set<nat>)
    requires forall h :: h in cached <==> h in cache && b.start <= h <= b.end
    requires forall h :: h in missing <==> b.start <= h <= b.end && h !in cache
    requires forall h :: h in fetched <==> h in missing && status(h).Available?
    requires !MissingFuture(b, cache, status)
    ensures cached + fetched == Readable(b, cache, status)
    ensures !MissingFailed(b, cache, status) ==> forall h :: b.start <= h <= b.end ==> h in cached + fetched
    ensures MissingFailed(b, cache, status) <==> exists h :: h in missing && status(h).Failed?
  {
    if !MissingFailed(b, cache, status) {
      forall h | b.start <= h <= b.end ensures h in cached + fetched {
        assert h !in cache ==> h in missing && status(h).Available?;
      }
    }
  }

  /** The retrieval at the end of an epoch: not yet if and only if a height that is not cached lies in the future;
      otherwise the whole epoch if no retrieval fails, and an empty event for the height if one does. */
  method RetrieveEpoch(da: DA, b: Bounds, cache: map<nat, BlockData>, status: nat -> Status) returns (r: Retrieval)
    requires b.start <= b.end && AllShow(cache, da)
    ensures r.NotYet? <==> MissingFuture(b, cache, status)
    ensures r.NotYet? || r.Retrieved?
    ensures r.Retrieved? ==>
              r.event == if MissingFailed(b, cache, status) then FailedEpoch(da, b, Readable(b, cache, status))
                         else WholeEpoch(da, b)
  {
    var cached, missing := SplitHeights(b.start, b.end, cache);
    var future, fetched, failed := FetchMissing(da, missing, status);
    if future {
      return NotYet;
    }
    var txs, time := Assemble(da, b.start, b.end, cached, fetched);
    TogetherReadable(b, cache, status, cached.Keys, missing, fetched.Keys);
    if failed {
      return Retrieved(Event(time, b.end, b.end, []));
    }
    AllReadable(da, cached.Keys + fetched.Keys, b.start, b.end + 1);
    return Retrieved(Event(time, b.start, b.end, txs));
  }

  class Retriever {
    const da: DA
    const daStartHeight: uint64
    const daEpochSize: uint64
    const prefetchWindow: uint64
    var cache: map<nat, BlockData>
    var consumedHeight: nat

    ghost predicate Valid()
      reads this
    {
      AllShow(cache, da) && prefetchWindow == Window(daEpochSize)
    }

    constructor (da: DA, daStartHeight: uint64, daEpochSize: uint64)
      ensures Valid() && cache == map[] && consumedHeight == 0
      ensures this.da == da && this.daStartHeight == daStartHeight && this.daEpochSize == daEpochSize
    {
      this.da, this.daStartHeight, this.daEpochSize := da, daStartHeight, daEpochSize;
      prefetchWindow := Window(daEpochSize);
      cache, consumedHeight := map[], 0;
    }

    /** Drops the blocks below `height - prefetchWindow`, key by key. */
    method CleanupOldBlocks(height: uint64)
      modifies this`cache
      ensures cache == Cleaned(old(cache), height, prefetchWindow)
    {
      if height < prefetchWindow {
        return;
      }
      var threshold := height - prefetchWindow;
      var todo := cache.Keys;
      while todo != {}
        invariant todo <= old(cache).Keys
        invariant forall h :: h in cache <==> h in old(cache) && (h in todo || h >= threshold)
        invariant forall h :: h in cache ==> cache[h] == old(cache)[h]
        decreases |todo|
      {
        var h :| h in todo;
        todo := todo - {h};
        if h < threshold {
          cache := cache - {h};
        }
      }
    }

    method UpdateCurrentHeight(height: uint64)
      requires Valid()
      modifies this
      ensures Valid() && consumedHeight == if height > old(consumedHeight) then height else old(consumedHeight)
      ensures cache == if height > old(consumedHeight) then Cleaned(old(cache), height, prefetchWindow) else old(cache)
    {
      if height <= consumedHeight {
        return;
      }
      consumedHeight := height;
      CleanupOldBlocks(height);
    }

    /** Fetches one height into the cache; `false` is the error that ends the catch-up. */
    method FetchAndCacheBlock(height: nat, status: Status) returns (ok: bool)
      requires Valid()
      modifies this`cache
      ensures Valid() && ok == status.Available?
      ensures cache == if !ok then old(cache)
                       else old(cache)[height := BlockData(NonEmpty(da(height).blobs), da(height).time)]
    {
      match status {
        case Future => return false;
        case Failed => return false;
        case Available =>
          var blobs := AppendBlobs([], da(height).blobs);
          assert blobs == NonEmpty(da(height).blobs);
          NonEmptyTwice(da(height).blobs);
          cache := cache[height := BlockData(blobs, da(height).time)];
          return true;
      }
    }

    /** The catch-up of one height, and the prefetch window after it, with the counter of the source. A window that
        wraps is cut, and one that ends at 2^64 - 1 is walked until the context ends. */
    method HandleCatchup(daHeight: uint64, status: nat -> Status) returns (ok: bool)
      requires Valid()
      modifies this`cache
      ensures Valid() && old(cache).Keys <= cache.Keys
      ensures ok ==> daHeight in cache
      ensures ok ==> forall h :: daHeight < h <= daHeight + prefetchWindow < TWO64 ==> h in cache
    {
      if daHeight !in cache {
        ok := FetchAndCacheBlock(daHeight, status(daHeight));
        if !ok {
          return false;
        }
      }
      var target := (daHeight + prefetchWindow) % TWO64;
      var first := (daHeight + 1) % TWO64;
      var h := first;
      while h <= target
        invariant first <= h < TWO64
        invariant Valid() && old(cache).Keys <= cache.Keys && daHeight in cache
        invariant forall k :: first <= k < h ==> k in cache
        decreases TWO64 - h
      {
        if h !in cache {
          var fetched := FetchAndCacheBlock(h, status(h));
          if !fetched {
            return false;
          }
        }
        if h == TWO64 - 1 {
          return false;
        }
        h := h + 1;
      }
      return true;
    }

    /** Every event covers its whole epoch or nothing; when the missing heights can be retrieved the epoch's event is
        delivered at its end; and the cleanup never touches a height of the epoch being assembled, if the prefetch
        window covers an epoch. */
    method RetrieveForcedIncludedTxs(daHeight: uint64, hasNamespace: bool, status: nat -> Status) returns (r: Retrieval)
      requires Valid()
      modifies this
      ensures Valid()
      ensures r.NotConfigured? <==> !hasNamespace
      ensures r.BeforeStart? <==> hasNamespace && daHeight < daStartHeight
      ensures r.Retrieved? ==>
                WholeOrNothing(da, r.event, daHeight, CalculateEpochBoundaries(daHeight, daStartHeight, daEpochSize))
      ensures !hasNamespace || daHeight < daStartHeight ==> !r.Retrieved? && !r.NotYet? && !r.Endless?
      ensures hasNamespace && daHeight >= daStartHeight ==>
                var b := CalculateEpochBoundaries(daHeight, daStartHeight, daEpochSize);
                && (daHeight != b.end ==> r == Retrieved(Event(0, daHeight, daHeight, [])))
                && (r.Endless? <==> daHeight == b.end == TWO64 - 1)
                && (r.NotYet? <==> daHeight == b.end < TWO64 - 1 && MissingFuture(b, cache, status))
                && (daHeight == b.end < TWO64 - 1 && !r.NotYet? ==>
                      r == Retrieved(
                             if MissingFailed(b, cache, status) then FailedEpoch(da, b, Readable(b, cache, status))
                             else WholeEpoch(da, b)))
      ensures daHeight >= daStartHeight && 0 < daEpochSize <= prefetchWindow + 1 ==>
                forall h :: h in old(cache) && h >= StartOf(daHeight, daStartHeight, daEpochSize) ==>
                  h in cache && cache[h] == old(cache)[h]
    {
      if !hasNamespace {
        return NotConfigured;
      }
      if daHeight < daStartHeight {
        return BeforeStart;
      }
      var b := CalculateEpochBoundaries(daHeight, daStartHeight, daEpochSize);
      UpdateCurrentHeight(daHeight);
      if daHeight != b.end {
        return Retrieved(Event(0, daHeight, daHeight, []));
      }
      if b.end == TWO64 - 1 {
        return Endless;
      }
      EndIsNotBeforeStart(daHeight, daStartHeight, daEpochSize);
      r := RetrieveEpoch(da, b, cache, status);
    }
  }

  lemma {:induction false} EndIsNotBeforeStart(h: uint64, s: uint64, z: uint64)
    requires s <= h && h == CalculateEpochBoundaries(h, s, z).end
    ensures CalculateEpochBoundaries(h, s, z).start <= h
  {
    if z > 0 {
      Boundaries(h, s, z);
    }
  }

  // ---------------------------------------------------------------- whole runs

  function AllTxs(es: seq<Event>): seq<Blob> {
    if es == [] then [] else AllTxs(es[..|es| - 1]) + es[|es| - 1].txs
  }

  /** Everything up to the last finished epoch. */
  function DeliveredBefore(da: DA, s: nat, z: nat, h: nat): seq<Blob>
    requires s <= h && z > 0
  {
    Collected(da, s, StartOf(h, s, z))
  }

  /** What a height adds: at its epoch's end the epoch's blobs, elsewhere nothing. */
  function AddedAt(da: DA, s: nat, z: nat, h: nat): seq<Blob>
    requires s <= h && z > 0
  {
    if h == StartOf(h, s, z) + z - 1 then Collected(da, StartOf(h, s, z), h + 1) else []
  }

  lemma {:induction false} NextHeight(da: DA, s: nat, z: nat, h: nat)
    requires s <= h && z > 0
    ensures DeliveredBefore(da, s, z, h + 1) == DeliveredBefore(da, s, z, h) + AddedAt(da, s, z, h)
  {
    EpochsTile(h, h + 1, s, z);
    if h == StartOf(h, s, z) + z - 1 {
      CollectedSplit(da, s, StartOf(h, s, z), h + 1);
    }
  }

  /** The i-th call is made at the i-th height: it delivers the whole epoch of a height that ends it, and otherwise
      nothing. */
  ghost predicate Delivers(da: DA, s: uint64, z: uint64, i: nat, e: Event) {
    && z > 0 && s + i < TWO64
    && WholeOrNothing(da, e, s + i, CalculateEpochBoundaries(s + i, s, z))
    && e.txs == AddedAt(da, s, z, s + i)
  }

  ghost predicate AllDeliver(da: DA, s: uint64, z: uint64, events: seq<Event>) {
    forall i {:trigger Delivers(da, s, z, i, events[i])} :: 0 <= i < |events| ==> Delivers(da, s, z, i, events[i])
  }

  lemma {:induction false} OneMoreDelivers(da: DA, s: uint64, z: uint64, events: seq<Event>, e: Event)
    requires AllDeliver(da, s, z, events) && Delivers(da, s, z, |events|, e)
    ensures AllDeliver(da, s, z, events + [e])
  {
    forall i | 0 <= i < |events + [e]|
      ensures Delivers(da, s, z, i, (events + [e])[i])
    {
      assert i < |events| ==> Delivers(da, s, z, i, events[i]);
    }
  }

  lemma {:induction false} AddsUp(events: seq<Event>, before: nat -> seq<Blob>)
    requires before(0) == []
    requires forall i {:trigger before(i + 1)} :: 0 <= i < |events| ==> before(i + 1) == before(i) + events[i].txs
    ensures AllTxs(events) == before(|events|)
    decreases |events|
  {
    if events != [] {
      var n := |events| - 1;
      AddsUp(events[..n], before);
      assert before(n + 1) == before(n) + events[n].txs;
    }
  }

  /** All blobs of all finished epochs have been delivered exactly once and in order. */
  lemma {:induction false} DeliveredInOrder(da: DA, s: uint64, z: uint64, events: seq<Event>)
    requires z > 0 && AllDeliver(da, s, z, events)
    ensures AllTxs(events) == DeliveredBefore(da, s, z, s + |events|)
  {
    var before := (i: nat) => DeliveredBefore(da, s, z, s + i);
    NothingBefore(da, s, z);
    forall i | 0 <= i < |events|
      ensures before(i + 1) == before(i) + events[i].txs
    {
      assert Delivers(da, s, z, i, events[i]);
      LastAdds(da, s, z, i, events[i]);
    }
    AddsUp(events, before);
  }

  lemma {:induction false} LastAdds(da: DA, s: uint64, z: uint64, i: nat, e: Event)
    requires Delivers(da, s, z, i, e)
    ensures z > 0 && DeliveredBefore(da, s, z, s + i + 1) == DeliveredBefore(da, s, z, s + i) + e.txs
  {
    NextHeight(da, s, z, s + i);
  }

  /** One background catch-up: its height, and how each of its retrievals ends. */
  datatype Catchup = Catchup(height: uint64, status: nat -> Status)

  /** The retriever is called at every DA height from the start on, with any catch-ups that succeed or fail anywhere
      before each call, and every retrieval of its own succeeds. Then all blobs of all finished epochs have been
      delivered exactly once and in order, whatever was a cache hit or a miss. */
  method Drive(da: DA, s: uint64, z: uint64, calls: nat, catchups: nat -> seq<Catchup>) returns (events: seq<Event>)
    requires z > 0 && s + calls < TWO64
    ensures |events| == calls
    ensures AllDeliver(da, s, z, events)
    ensures AllTxs(events) == DeliveredBefore(da, s, z, s + calls)
  {
    var r := new Retriever(da, s, z);
    events := [];
    for i := 0 to calls
      invariant fresh(r) && r.Valid() && r.da == da && r.daStartHeight == s && r.daEpochSize == z
      invariant |events| == i && AllDeliver(da, s, z, events)
    {
      CatchUp(r, catchups(i));
      events := DriveOne(r, events);
    }
    DeliveredInOrder(da, s, z, events);
  }

  method CatchUp(r: Retriever, cs: seq<Catchup>)
    requires r.Valid()
    modifies r
    ensures r.Valid()
  {
    for i := 0 to |cs|
      invariant r.Valid()
    {
      var _ := r.HandleCatchup(cs[i].height, cs[i].status);
    }
  }

  method DriveOne(r: Retriever, events: seq<Event>) returns (events': seq<Event>)
    requires r.Valid() && r.daEpochSize > 0 && r.daStartHeight + |events| < TWO64 - 1
    requires AllDeliver(r.da, r.daStartHeight, r.daEpochSize, events)
    modifies r
    ensures r.Valid() && |events'| == |events| + 1 && AllDeliver(r.da, r.daStartHeight, r.daEpochSize, events')
  {
    var e := Ask(r, |events|);
    OneMoreDelivers(r.da, r.daStartHeight, r.daEpochSize, events, e);
    events' := events + [e];
  }

  method Ask(r: Retriever, i: nat) returns (e: Event)
    requires r.Valid() && r.daEpochSize > 0 && r.daStartHeight + i < TWO64 - 1
    modifies r
    ensures r.Valid() && Delivers(r.da, r.daStartHeight, r.daEpochSize, i, e)
  {
    var h: uint64 := r.daStartHeight + i;
    var res := r.RetrieveForcedIncludedTxs(h, true, _ => Available);
    EndsExactly(h, r.daStartHeight, r.daEpochSize);
    e := res.event;
  }

  lemma {:induction false} NothingBefore(da: DA, s: nat, z: nat)
    requires z > 0
    ensures DeliveredBefore(da, s, z, s) == []
  {
    DivUnique(0, z, 0);
  }

  /** A height is the computed end of its epoch if and only if it is the last height of the epoch, also where the end
      overflows: then no height is. */
  lemma {:induction false} EndsExactly(h: uint64, s: uint64, z: uint64)
    requires s <= h && z > 0
    ensures var b := CalculateEpochBoundaries(h, s, z);
            b.start == StartOf(h, s, z) && (h == b.end <==> h == StartOf(h, s, z) + z - 1)
  {
    Boundaries(h, s, z);
    var e := StartOf(h, s, z) + z - 1;
    if e < TWO64 {
      ModSmall(e);
    } else {
      assert e % TWO64 == e - TWO64;
    }
  }

  /** An epoch size of zero is one epoch of one height: nothing after the start height is ever delivered. */
  lemma {:induction false} ZeroEpochSize(h: uint64, s: uint64)
    requires h >= s
    ensures CalculateEpochBoundaries(h, s, 0).end == h <==> h == s
  {
  }
}
