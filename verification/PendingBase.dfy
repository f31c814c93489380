/** Items waiting for submission to the data availability layer, kept in an LRU cache whose capacity equals the
    largest window that is ever returned. */
module PendingBase {
  import opened Common

  const PENDING_CACHE_SIZE := 200_000

  // ---------------------------------------------------------------- the LRU cache

  /** Keys from least to most recently used. */
  datatype Lru<+V> = Lru(order: seq<nat>, items: map<nat, V>)

  function Without(s: seq<nat>, k: nat): seq<nat> {
    if s == [] then [] else if s[0] == k then s[1..] else [s[0]] + Without(s[1..], k)
  }

  /** Get moves the key to the recent end. */
  function Touch<V>(l: Lru<V>, k: nat): Lru<V> {
    l.(order := Without(l.order, k) + [k])
  }

  /** Add of a missing key evicts the oldest key when the cache is over capacity. */
  function Add<V>(l: Lru<V>, k: nat, v: V): Lru<V> {
    if k in l.items then Touch(l.(items := l.items[k := v]), k)
    else
      var order := l.order + [k];
      var items := l.items[k := v];
      if |order| > PENDING_CACHE_SIZE then Lru(order[1..], items - {order[0]}) else Lru(order, items)
  }

  lemma {:induction false} WithoutMiddle(pre: seq<nat>, k: nat, post: seq<nat>)
    requires k !in pre
    ensures Without(pre + [k] + post, k) == pre + post
  {
    var s := pre + [k] + post;
    if pre == [] {
      assert s[1..] == post;
    } else {
      assert s[1..] == pre[1..] + [k] + post;
      WithoutMiddle(pre[1..], k, post);
    }
  }

  // ---------------------------------------------------------------- ascending keys

  predicate Ascending(s: seq<nat>) {
    forall i, j :: 0 <= i < j < |s| ==> s[i] < s[j]
  }

  /** The heights `lo`, ..., `hi - 1`. */
  function Range(lo: nat, hi: nat): (r: seq<nat>)
    requires lo <= hi
    ensures |r| == hi - lo && forall i :: 0 <= i < hi - lo ==> r[i] == lo + i
    decreases hi - lo
  {
    if lo == hi then [] else [lo] + Range(lo + 1, hi)
  }

  lemma {:induction false} AscendingSpread(s: seq<nat>)
    requires Ascending(s) && s != []
    ensures s[0] + |s| - 1 <= s[|s| - 1]
  {
    if |s| > 1 {
      AscendingSpread(s[..|s| - 1]);
    }
  }

  lemma {:induction false} HighestIsLast(s: seq<nat>, b: nat)
    requires Ascending(s) && b in s
    requires forall i :: 0 <= i < |s| ==> s[i] <= b
    ensures s[|s| - 1] == b
  {
    var i :| 0 <= i < |s| && s[i] == b;
  }

  /** Splits an ascending key list that holds all of (a, b], and nothing above, at height `a`. */
  lemma {:induction false} EndsWithRange(s: seq<nat>, a: nat, b: nat) returns (pre: seq<nat>)
    requires Ascending(s) && a <= b
    requires forall i :: 0 <= i < |s| ==> s[i] <= b
    requires forall k :: a < k <= b ==> k in s
    ensures s == pre + Range(a + 1, b + 1)
    ensures forall k :: k in pre ==> k <= a
    decreases b
  {
    if a == b {
      pre := s;
    } else {
      HighestIsLast(s, b);
      var s' := s[..|s| - 1];
      assert s == s' + [b];
      forall k | a < k <= b - 1 ensures k in s' {
        assert k in s' + [b];
      }
      pre := EndsWithRange(s', a, b - 1);
      RangeSnoc(a + 1, b);
    }
  }

  lemma {:induction false} RangeSnoc(lo: nat, hi: nat)
    requires lo <= hi
    ensures Range(lo, hi + 1) == Range(lo, hi) + [hi]
  {
  }

  /** The recency order when the heights of the window below `h` have been read. */
  function PartlyRead(pre: seq<nat>, a: nat, h: nat, end: nat): seq<nat>
    requires a < h <= end + 1
  {
    pre + Range(h, end + 1) + Range(a + 1, h)
  }

  lemma {:induction false} NothingRead(pre: seq<nat>, a: nat, end: nat)
    requires a <= end
    ensures PartlyRead(pre, a, a + 1, end) == PartlyRead(pre, a, end + 1, end) == pre + Range(a + 1, end + 1)
  {
  }

  /** Reading height `h` of a partly read window moves it behind the heights read before. */
  lemma {:induction false} ReadRotates(pre: seq<nat>, a: nat, h: nat, end: nat)
    requires a < h <= end && h !in pre
    ensures Without(PartlyRead(pre, a, h, end), h) + [h] == PartlyRead(pre, a, h + 1, end)
  {
    var post := Range(h + 1, end + 1) + Range(a + 1, h);
    assert Range(h, end + 1) == [h] + Range(h + 1, end + 1);
    assert pre + Range(h, end + 1) + Range(a + 1, h) == pre + [h] + post;
    WithoutMiddle(pre, h, post);
    RangeSnoc(a + 1, h);
  }

  // ---------------------------------------------------------------- the window

  function EndHeight(last: nat, store: nat): nat
    requires last <= store
  {
    if store - last > PENDING_CACHE_SIZE then last + PENDING_CACHE_SIZE else store
  }

  /** The items a caller must get: those at last+1, ..., min(store, last + 200000), in order. */
  function Window<T>(fetch: nat -> T, last: nat, store: nat): (r: seq<T>)
    requires last <= store
  {
    seq(EndHeight(last, store) - last, i requires 0 <= i => fetch(last + 1 + i))
  }

  /** The highest key, which is the most recent one. */
  function Top(order: seq<nat>): nat
    requires order != []
  {
    order[|order| - 1]
  }

  /** The cache between calls, with at most `size` keys. `log` lists the heights fetched so far. */
  ghost predicate Holds<T>(l: Lru<T>, last: nat, fetch: nat -> T, log: seq<nat>, size: nat) {
    && (forall k :: k in l.items <==> k in l.order)
    && Ascending(l.order) && |l.order| <= size
    && (forall k :: k in l.items ==> l.items[k] == fetch(k))
    && Ascending(log)
    && (log == [] <==> l.order == [])
    && (l.order != [] ==>
          && log[|log| - 1] == Top(l.order) <= last + PENDING_CACHE_SIZE
          && forall k :: last < k <= Top(l.order) ==> k in l.items)
  }

  ghost predicate Consistent<T>(l: Lru<T>, last: nat, fetch: nat -> T, log: seq<nat>) {
    Holds(l, last, fetch, log, PENDING_CACHE_SIZE)
  }

  lemma {:induction false} AppendKeeps<T>(l: Lru<T>, last: nat, fetch: nat -> T, log: seq<nat>, size: nat, h: nat)
    requires Holds(l, last, fetch, log, size)
    requires last < h <= last + PENDING_CACHE_SIZE && h !in l.items
    requires forall k :: last < k < h ==> k in l.items
    ensures Holds(Lru(l.order + [h], l.items[h := fetch(h)]), last, fetch, log + [h], size + 1)
  {
    if l.order != [] {
      assert Top(l.order) < h;
    }
  }

  /** One key too many: the oldest is the lowest, and it lies below the window. */
  lemma {:induction false} EvictKeeps<T>(l: Lru<T>, last: nat, fetch: nat -> T, log: seq<nat>)
    requires Holds(l, last, fetch, log, PENDING_CACHE_SIZE + 1) && |l.order| == PENDING_CACHE_SIZE + 1
    ensures l.order[0] <= last
    ensures Consistent(Lru(l.order[1..], l.items - {l.order[0]}), last, fetch, log)
  {
    AscendingSpread(l.order);
    forall k ensures k in l.order[1..] <==> k in l.order && k != l.order[0] {
      if k in l.order && k != l.order[0] {
        var i :| 0 <= i < |l.order| && l.order[i] == k;
        assert l.order[1..][i - 1] == k;
      }
    }
  }

  /** Adding the next missing height of the window keeps the cache consistent and evicts nothing of the window. */
  lemma {:induction false} AddKeeps<T>(l: Lru<T>, last: nat, fetch: nat -> T, log: seq<nat>, h: nat)
    requires Consistent(l, last, fetch, log)
    requires last < h <= last + PENDING_CACHE_SIZE && h !in l.items
    requires forall k :: last < k < h ==> k in l.items
    ensures Consistent(Add(l, h, fetch(h)), last, fetch, log + [h])
    ensures forall k :: last < k <= h ==> k in Add(l, h, fetch(h)).items
    ensures Add(l, h, fetch(h)).order != [] && Top(Add(l, h, fetch(h)).order) == h
  {
    AppendKeeps(l, last, fetch, log, PENDING_CACHE_SIZE, h);
    var full := Lru(l.order + [h], l.items[h := fetch(h)]);
    if |full.order| > PENDING_CACHE_SIZE {
      EvictKeeps(full, last, fetch, log + [h]);
    }
  }

  /** Above the last height that is missing nothing is cached. */
  lemma {:induction false} NothingAbove<T>(l: Lru<T>, last: nat, fetch: nat -> T, log: seq<nat>, h: nat)
    requires Consistent(l, last, fetch, log) && last < h
    requires h !in l.items || (l.order != [] && Top(l.order) < h)
    ensures forall k :: k in l.items ==> k < h
  {
    forall k | k in l.items ensures k < h {
      var i :| 0 <= i < |l.order| && l.order[i] == k;
      assert k <= Top(l.order);
    }
  }

  /** A fetch of the next missing height, and the keys above it: there are none, before and after. */
  lemma {:induction false} FetchKeeps<T>(l: Lru<T>, last: nat, fetch: nat -> T, log: seq<nat>, h: nat)
    requires Consistent(l, last, fetch, log)
    requires last < h <= last + PENDING_CACHE_SIZE && h !in l.items
    requires forall k :: last < k < h ==> k in l.items
    ensures var l' := Add(l, h, fetch(h));
            && Consistent(l', last, fetch, log + [h])
            && (forall k :: last < k <= h ==> k in l'.items)
            && l'.order != [] && Top(l'.order) == h
            && (forall k :: h < k ==> k !in l.items && k !in l'.items)
  {
    AddKeeps(l, last, fetch, log, h);
    NothingAbove(l, last, fetch, log, h);
    NothingAbove(Add(l, h, fetch(h)), last, fetch, log + [h], h + 1);
  }

  /** Get for each height of (a, end], the most recent keys. */
  method ReadAll<T>(l: Lru<T>, a: nat, end: nat, ghost pre: seq<nat>) returns (pending: seq<T>, l': Lru<T>)
    requires a <= end && l.order == pre + Range(a + 1, end + 1)
    requires forall k :: k in pre ==> k <= a
    requires forall k :: a < k <= end ==> k in l.items
    ensures l' == l
    ensures |pending| == end - a
    ensures forall i :: 0 <= i < |pending| ==> pending[i] == l.items[a + 1 + i]
  {
    pending, l' := [], l;
    var h := a + 1;
    NothingRead(pre, a, end);
    while h <= end
      invariant a < h <= end + 1
      invariant l' == Lru(PartlyRead(pre, a, h, end), l.items)
      invariant |pending| == h - a - 1
      invariant forall i :: 0 <= i < |pending| ==> pending[i] == l.items[a + 1 + i]
    {
      pending := pending + [l'.items[h]];
      ReadRotates(pre, a, h, end);
      l' := Touch(l', h);
      h := h + 1;
    }
  }

  /** The window is the recent end of the key order. */
  lemma {:induction false} WindowIsRecent<T>(l: Lru<T>, last: nat, fetch: nat -> T, log: seq<nat>, end: nat)
    returns (pre: seq<nat>)
    requires Consistent(l, last, fetch, log) && last < end
    requires l.order != [] ==> Top(l.order) <= end
    requires forall k :: last < k <= end ==> k in l.items
    ensures l.order == pre + Range(last + 1, end + 1)
    ensures forall k :: k in pre ==> k <= last
  {
    forall i | 0 <= i < |l.order| ensures l.order[i] <= end {
      assert l.order[i] <= Top(l.order);
    }
    pre := EndsWithRange(l.order, last, end);
  }

  /** Reads a cached window; the cache comes out as it went in. */
  method ReadRecent<T>(l: Lru<T>, last: nat, fetch: nat -> T, ghost log: seq<nat>, end: nat)
    returns (pending: seq<T>, l': Lru<T>)
    requires Consistent(l, last, fetch, log) && last < end
    requires l.order != [] ==> Top(l.order) <= end
    requires forall k :: last < k <= end ==> k in l.items
    ensures l' == l
    ensures |pending| == end - last
    ensures forall i :: 0 <= i < |pending| ==> pending[i] == fetch(last + 1 + i)
  {
    ghost var pre := WindowIsRecent(l, last, fetch, log, end);
    pending, l' := ReadAll(l, last, end, pre);
  }

  class Pending<T> {
    const fetch: nat -> T
    var lastHeight: nat
    var cache: Lru<T>
    var fetched: seq<nat>  // the successful fetch calls, in order

    ghost predicate Valid()
      reads this
    {
      Consistent(cache, lastHeight, fetch, fetched)
    }

    constructor (fetch: nat -> T, persisted: nat)
      ensures Valid() && this.fetch == fetch && lastHeight == persisted && fetched == []
    {
      this.fetch := fetch;
      lastHeight := persisted;
      cache := Lru([], map[]);
      fetched := [];
    }

    /** Only ever moves forward. */
    method SetLastSubmittedHeight(newHeight: nat)
      requires Valid()
      modifies this`lastHeight
      ensures Valid()
      ensures lastHeight == if newHeight > old(lastHeight) then newHeight else old(lastHeight)
    {
      if newHeight > lastHeight {
        lastHeight := newHeight;
      }
    }

    /** The store has not gone below what was fetched from it. A fetch at a height in `fails` is an error. The heights
        fetched by this call are new and ascending, so none is ever fetched twice. */
    method GetPending(store: nat, fails: set<nat>) returns (r: Result<seq<T>>)
      requires Valid()
      requires cache.order != [] ==> Top(cache.order) <= store
      modifies this
      ensures Valid() && lastHeight == old(lastHeight)
      ensures cache.order != [] ==> Top(cache.order) <= store
      ensures old(fetched) <= fetched
      ensures r.Ok? ==> lastHeight <= store && r.value == Window(fetch, lastHeight, store)
      ensures r.Err? <==>
              || lastHeight > store
              || exists h ::
                   h in fails && lastHeight < h <= EndHeight(lastHeight, store) && h !in old(cache).items
    {
      if lastHeight == store {
        return Ok([]);
      }
      if lastHeight > store {
        return Err;
      }
      var end := EndHeight(lastHeight, store);
      var ok := FetchMissing(end, fails);
      if !ok {
        return Err;
      }
      var pending := ReadWindow(end);
      assert pending == Window(fetch, lastHeight, store);
      return Ok(pending);
    }

    /** One turn of the first loop. */
    method FetchOne(h: nat, end: nat, fails: set<nat>) returns (ok: bool)
      requires Valid() && lastHeight < h <= end <= lastHeight + PENDING_CACHE_SIZE
      requires cache.order != [] ==> Top(cache.order) <= end
      requires forall k :: lastHeight < k < h ==> k in cache.items
      modifies this`cache, this`fetched
      ensures Valid() && old(fetched) <= fetched
      ensures cache.order != [] ==> Top(cache.order) <= end
      ensures ok <==> h in old(cache).items || h !in fails
      ensures ok ==> forall k :: lastHeight < k <= h ==> k in cache.items
      ensures forall k :: h < k ==> (k in cache.items <==> k in old(cache).items)
    {
      if h in cache.items {
        return true;
      }
      if h in fails {
        return false;
      }
      FetchKeeps(cache, lastHeight, fetch, fetched, h);
      cache := Add(cache, h, fetch(h));
      fetched := fetched + [h];
      return true;
    }

    /** First loop: fetch what is not cached. */
    method FetchMissing(end: nat, fails: set<nat>) returns (ok: bool)
      requires Valid() && lastHeight < end <= lastHeight + PENDING_CACHE_SIZE
      requires cache.order != [] ==> Top(cache.order) <= end
      modifies this`cache, this`fetched
      ensures Valid()
      ensures cache.order != [] ==> Top(cache.order) <= end
      ensures old(fetched) <= fetched
      ensures ok ==> forall k :: lastHeight < k <= end ==> k in cache.items
      ensures !ok <==> exists h :: h in fails && lastHeight < h <= end && h !in old(cache).items
    {
      var h := lastHeight + 1;
      while h <= end
        invariant lastHeight < h <= end + 1
        invariant Valid() && old(fetched) <= fetched
        invariant cache.order != [] ==> Top(cache.order) <= end
        invariant forall k :: lastHeight < k < h ==> k in cache.items
        invariant forall k :: k in fails && lastHeight < k < h ==> k in old(cache).items
        invariant forall k :: h <= k ==> (k in cache.items <==> k in old(cache).items)
      {
        ok := FetchOne(h, end, fails);
        if !ok {
          return false;
        }
        h := h + 1;
      }
      return true;
    }

    /** Second loop: every height of the window is read from the cache, so the refetch branch is never taken, and the
        recency order comes out as it went in. */
    method ReadWindow(end: nat) returns (pending: seq<T>)
      requires Valid() && lastHeight < end
      requires cache.order != [] ==> Top(cache.order) <= end
      requires forall k :: lastHeight < k <= end ==> k in cache.items
      modifies this`cache
      ensures cache == old(cache)
      ensures |pending| == end - lastHeight
      ensures forall i :: 0 <= i < |pending| ==> pending[i] == fetch(lastHeight + 1 + i)
    {
      pending, cache := ReadRecent(cache, lastHeight, fetch, fetched, end);
    }
  }

  // ---------------------------------------------------------------- whole runs

  datatype Op = Grow(store: nat) | Submitted(height: nat) | Get(fails: set<nat>)

  /** Neither height goes down. */
  function After(last: nat, store: nat, op: Op): (nat, nat) {
    match op
    case Grow(s) => (last, if s > store then s else store)
    case Submitted(h) => (if h > last then h else last, store)
    case Get(_) => (last, store)
  }

  /** Last submitted height and store height after the first operations. */
  function Heights(ops: seq<Op>): (nat, nat) {
    if ops == [] then (0, 0)
    else
      var (last, store) := Heights(ops[..|ops| - 1]);
      After(last, store, ops[|ops| - 1])
  }

  /** A successful answer is exactly the window: the items after the last submitted height in order, all of them or
      the first 200000. An error needs a submitted height above the store or a failing fetch in that window. */
  ghost predicate Answers<T>(fetch: nat -> T, heights: (nat, nat), fails: set<nat>, r: Result<seq<T>>) {
    var (last, store) := heights;
    && (r.Ok? ==>
          && last <= store
          && |r.value| == (if store - last <= 200000 then store - last else 200000)
          && forall i :: 0 <= i < |r.value| ==> r.value[i] == fetch(last + 1 + i))
    && (r.Err? ==> last > store || exists h :: h in fails && last < h <= store && h <= last + 200000)
  }

  method DriveOne<T>(p: Pending<T>, store: nat, op: Op) returns (r: Result<seq<T>>, store': nat)
    requires p.Valid() && (p.cache.order != [] ==> Top(p.cache.order) <= store)
    modifies p
    ensures p.Valid() && (p.cache.order != [] ==> Top(p.cache.order) <= store')
    ensures (p.lastHeight, store') == After(old(p.lastHeight), store, op)
    ensures op.Get? ==> Answers(p.fetch, (old(p.lastHeight), store), op.fails, r)
  {
    r, store' := Err, store;
    match op {
      case Grow(s) =>
        store' := if s > store then s else store;
      case Submitted(h) =>
        p.SetLastSubmittedHeight(h);
      case Get(fails) =>
        r := p.GetPending(store, fails);
    }
  }

  /** Over every run each successful answer is exactly the window of its moment, an answer is an error only when the
      submitted height is above the store or a fetch inside the window fails, and all fetches together are ascending:
      no height is fetched twice. */
  method Drive<T>(fetch: nat -> T, ops: seq<Op>) returns (results: seq<Result<seq<T>>>, fetches: seq<nat>)
    ensures |results| == |ops|
    ensures forall i :: 0 <= i < |ops| && ops[i].Get? ==> Answers(fetch, Heights(ops[..i]), ops[i].fails, results[i])
    ensures Ascending(fetches)
  {
    var p := new Pending(fetch, 0);
    var store := 0;
    results := [];
    for i := 0 to |ops|
      invariant fresh(p) && p.Valid() && p.fetch == fetch
      invariant (p.lastHeight, store) == Heights(ops[..i])
      invariant p.cache.order != [] ==> Top(p.cache.order) <= store
      invariant |results| == i
      invariant forall k :: 0 <= k < i && ops[k].Get? ==> Answers(fetch, Heights(ops[..k]), ops[k].fails, results[k])
    {
      assert ops[..i + 1][..i] == ops[..i];
      var r;
      r, store := DriveOne(p, store, ops[i]);
      results := results + [r];
    }
    fetches := p.fetched;
  }
}
