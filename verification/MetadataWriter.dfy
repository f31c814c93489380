/** The background writer of the cached store: queued metadata writes are cut into batches by a timer, and each batch
    keeps only the last operation per key. */
module MetadataWriter {

  type Bytes = seq<nat>

  datatype Op = Op(key: string, value: Bytes, isDelete: bool)

  datatype KV = KV(key: string, value: Bytes)

  type Metadata = map<string, Bytes>

  // ---------------------------------------------------------------- the reference: one operation after the other

  function ApplyOp(m: Metadata, o: Op): Metadata {
    if o.isDelete then m - {o.key} else m[o.key := o.value]
  }

  function InOrder(m: Metadata, ops: seq<Op>): Metadata {
    if ops == [] then m else ApplyOp(InOrder(m, ops[..|ops| - 1]), ops[|ops| - 1])
  }

  lemma {:induction false} InOrderAppend(m: Metadata, a: seq<Op>, b: seq<Op>)
    ensures InOrder(m, a + b) == InOrder(InOrder(m, a), b)
  {
    if b == [] {
      assert a + b == a;
    } else {
      assert (a + b)[..|a + b| - 1] == a + b[..|b| - 1];
      InOrderAppend(m, a, b[..|b| - 1]);
    }
  }

  // ---------------------------------------------------------------- last operation per key

  /** The map `last` after the loop over a batch. */
  function LastPerKey(ops: seq<Op>): (r: map<string, Op>)
    ensures forall k :: k in r ==> r[k].key == k
  {
    if ops == [] then map[]
    else LastPerKey(ops[..|ops| - 1])[ops[|ops| - 1].key := ops[|ops| - 1]]
  }

  /** Where the last operations leave the metadata. */
  function Settled(m: Metadata, last: map<string, Op>): Metadata {
    map k | k in m.Keys + last.Keys && (k in last ==> !last[k].isDelete) :: if k in last then last[k].value else m[k]
  }

  /** Only the last operation per key matters. */
  lemma {:induction false} LastDecides(m: Metadata, ops: seq<Op>)
    ensures InOrder(m, ops) == Settled(m, LastPerKey(ops))
    decreases |ops|
  {
    if ops != [] {
      LastDecides(m, ops[..|ops| - 1]);
    }
  }

  // ---------------------------------------------------------------- BatchMetadata

  function PutAll(m: Metadata, puts: seq<KV>): Metadata {
    if puts == [] then m else PutAll(m, puts[..|puts| - 1])[puts[|puts| - 1].key := puts[|puts| - 1].value]
  }

  function DeleteAll(m: Metadata, deletes: seq<string>): Metadata {
    if deletes == [] then m else DeleteAll(m, deletes[..|deletes| - 1]) - {deletes[|deletes| - 1]}
  }

  /** One committed batch: the puts, then the deletes. */
  function BatchMetadata(m: Metadata, puts: seq<KV>, deletes: seq<string>): Metadata {
    DeleteAll(PutAll(m, puts), deletes)
  }

  /** Some put has this key. */
  predicate HasPut(puts: seq<KV>, k: string) {
    puts != [] && (puts[|puts| - 1].key == k || HasPut(puts[..|puts| - 1], k))
  }

  /** The two lists that the loop over the map builds, in whatever order the map is walked. */
  ghost predicate Split(last: map<string, Op>, done: set<string>, puts: seq<KV>, deletes: seq<string>) {
    && (forall k :: HasPut(puts, k) <==> k in done && k in last && !last[k].isDelete)
    && (forall i :: 0 <= i < |puts| ==> puts[i].key in last && puts[i].value == last[puts[i].key].value)
    && (forall k :: k in deletes <==> k in done && k in last && last[k].isDelete)
  }

  lemma {:induction false} PutAllLookup(m: Metadata, puts: seq<KV>, f: map<string, Op>)
    requires forall i :: 0 <= i < |puts| ==> puts[i].key in f && puts[i].value == f[puts[i].key].value
    ensures forall k :: HasPut(puts, k) ==> k in f
    ensures PutAll(m, puts).Keys == m.Keys + set k | k in f && HasPut(puts, k)
    ensures forall k :: k in PutAll(m, puts) ==>
              PutAll(m, puts)[k] == if HasPut(puts, k) then f[k].value else m[k]
  {
    if puts != [] {
      PutAllLookup(m, puts[..|puts| - 1], f);
    }
  }

  lemma {:induction false} DeleteAllLookup(m: Metadata, deletes: seq<string>)
    ensures DeleteAll(m, deletes) == map k | k in m && k !in deletes :: m[k]
  {
    if deletes != [] {
      var n := |deletes| - 1;
      DeleteAllLookup(m, deletes[..n]);
      assert deletes == deletes[..n] + [deletes[n]];
    }
  }

  lemma {:induction false} KeySettles(m: Metadata, last: map<string, Op>, puts: seq<KV>, deletes: seq<string>,
      k: string)
    requires Split(last, last.Keys, puts, deletes)
    ensures var r, s := BatchMetadata(m, puts, deletes), Settled(m, last);
            (k in r <==> k in s) && (k in r ==> r[k] == s[k])
  {
    PutAllLookup(m, puts, last);
    DeleteAllLookup(PutAll(m, puts), deletes);
    assert k in PutAll(m, puts) <==> k in m || HasPut(puts, k);
    assert HasPut(puts, k) <==> k in last && !last[k].isDelete;
    assert k in deletes <==> k in last && last[k].isDelete;
  }

  /** Puts then deletes, in any order within the lists, is the settled state. */
  lemma {:induction false} BatchSettles(m: Metadata, last: map<string, Op>, puts: seq<KV>, deletes: seq<string>)
    requires Split(last, last.Keys, puts, deletes)
    ensures BatchMetadata(m, puts, deletes) == Settled(m, last)
  {
    forall k
      ensures var r, s := BatchMetadata(m, puts, deletes), Settled(m, last);
              (k in r <==> k in s) && (k in r ==> r[k] == s[k])
    {
      KeySettles(m, last, puts, deletes, k);
    }
  }

  /** The body of the write loop for one collected batch; a batch that the database refuses changes nothing. */
  method Flush(m: Metadata, ops: seq<Op>, taken: bool) returns (m': Metadata)
    ensures m' == if taken then InOrder(m, ops) else m
  {
    var last: map<string, Op> := map[];
    for i := 0 to |ops|
      invariant last == LastPerKey(ops[..i])
    {
      assert ops[..i + 1][..i] == ops[..i];
      last := last[ops[i].key := ops[i]];
    }
    assert ops[..|ops|] == ops;
    var puts, deletes := SplitOps(last);
    BatchSettles(m, last, puts, deletes);
    LastDecides(m, ops);
    m' := if taken then BatchMetadata(m, puts, deletes) else m;
  }

  lemma {:induction false} SplitPut(last: map<string, Op>, done: set<string>, puts: seq<KV>, deletes: seq<string>,
      k: string)
    requires Split(last, done, puts, deletes) && k in last && last[k].key == k && !last[k].isDelete
    ensures Split(last, done + {k}, puts + [KV(k, last[k].value)], deletes)
  {
    var puts' := puts + [KV(k, last[k].value)];
    assert puts'[..|puts|] == puts;
  }

  lemma {:induction false} SplitDelete(last: map<string, Op>, done: set<string>, puts: seq<KV>,
      deletes: seq<string>, k: string)
    requires Split(last, done, puts, deletes) && k in last && last[k].isDelete
    ensures Split(last, done + {k}, puts, deletes + [k])
  {
  }

  method SplitOps(last: map<string, Op>) returns (puts: seq<KV>, deletes: seq<string>)
    requires forall k :: k in last ==> last[k].key == k
    ensures Split(last, last.Keys, puts, deletes)
  {
    puts, deletes := [], [];
    var todo := last.Keys;
    ghost var done := {};
    while todo != {}
      invariant todo <= last.Keys && done == last.Keys - todo && Split(last, done, puts, deletes)
      decreases |todo|
    {
      var k :| k in todo;
      todo := todo - {k};
      var o := last[k];
      if o.isDelete {
        SplitDelete(last, done, puts, deletes, k);
        deletes := deletes + [o.key];
      } else {
        SplitPut(last, done, puts, deletes, k);
        puts := puts + [KV(o.key, o.value)];
      }
      done := done + {k};
    }
    assert done == last.Keys;
  }

  // ---------------------------------------------------------------- any cutting of the queue

  /** A batch of the queue, and whether the database takes it. */
  datatype Batch = Batch(ops: seq<Op>, taken: bool)

  /** The operations of the batches that were taken. */
  function Taken(batches: seq<Batch>): seq<Op> {
    if batches == [] then []
    else
      var last := batches[|batches| - 1];
      Taken(batches[..|batches| - 1]) + if last.taken then last.ops else []
  }

  /** However the timer cuts the queue into batches, the metadata ends as if every operation of the batches that the
      database took had been applied in order; a refused batch is lost as a whole. */
  method WriteLoop(m: Metadata, batches: seq<Batch>) returns (m': Metadata)
    ensures m' == InOrder(m, Taken(batches))
  {
    m' := m;
    for i := 0 to |batches|
      invariant m' == InOrder(m, Taken(batches[..i]))
    {
      assert batches[..i + 1][..i] == batches[..i];
      var ops := if batches[i].taken then batches[i].ops else [];
      InOrderAppend(m, Taken(batches[..i]), ops);
      m' := Flush(m', batches[i].ops, batches[i].taken);
    }
    assert batches[..|batches|] == batches;
  }
}
