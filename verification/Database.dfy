/** The engine object: fields updated in place, loops over sources, keys and
    mutations. Each method is tied to the step function that specifies it. */
module Database {
  import opened ByteStrings
  import opened Versions
  import opened WriteAheadLog
  import opened Storage
  import opened EM = EngineModel

  // ---- Choosing the versions a compaction keeps ----

  ghost predicate Descending(vs: seq<Hit>) {
    forall i, j :: 0 <= i < j < |vs| ==> vs[i].sequence > vs[j].sequence
  }

  /** The version list of one key says exactly what the table holds for it. */
  ghost predicate Lists(vs: seq<Hit>, t: Table, k: Bytes) {
    && Descending(vs)
    && (forall i :: 0 <= i < |vs| ==> Key(k, vs[i].sequence) in t && t[Key(k, vs[i].sequence)] == vs[i].val)
    && (forall s: nat :: Key(k, s) in t ==> exists i :: 0 <= i < |vs| && vs[i].sequence == s)
  }

  lemma ListedHeadIsNewest(vs: seq<Hit>, t: Table, k: Bytes)
    requires Lists(vs, t, k) && vs != []
    ensures Newest(t, k) == Some(vs[0])
  {
  }

  /** Whether the version at position `i` of a newest-first list outlives watermark `w`. */
  predicate Keeps(vs: seq<Hit>, i: nat, w: nat)
    requires i < |vs|
  {
    && !(vs[0].val.None? && vs[0].sequence < w)
    && (vs[i].sequence >= w || (i == 0 && vs[i].val.Some?))
  }

  /** Drop everything when the newest version is a tombstone below the watermark;
      otherwise keep what is at or above it, and a newest put below it. */
  method SelectVersionsForGc(vs: seq<Hit>, w: nat) returns (kept: seq<Hit>)
    requires Descending(vs)
    ensures kept <= vs
    ensures forall i :: 0 <= i < |vs| ==> (i < |kept| <==> Keeps(vs, i, w))
  {
    if vs == [] {
      return [];
    }
    if vs[0].val.None? && vs[0].sequence < w {
      return [];
    }
    kept := [];
    for i := 0 to |vs|
      invariant |kept| <= i && kept == vs[..|kept|]
      invariant |kept| < i ==> vs[|kept|].sequence < w
      invariant forall j :: 0 <= j < i ==> (j < |kept| <==> Keeps(vs, j, w))
    {
      if vs[i].sequence >= w || (i == 0 && vs[i].val.Some?) {
        kept := kept + [vs[i]];
      }
    }
  }

  /** The selected list is the version list of the collected table. */
  lemma SelectionIsCollect(vs: seq<Hit>, kept: seq<Hit>, w: nat, t: Table, k: Bytes)
    requires Lists(vs, t, k) && kept <= vs
    requires forall i :: 0 <= i < |vs| ==> (i < |kept| <==> Keeps(vs, i, w))
    ensures Lists(kept, Collect(t, w), k)
  {
    if vs != [] {
      ListedHeadIsNewest(vs, t, k);
      forall i | 0 <= i < |vs| ensures Keeps(vs, i, w) <==> Retained(t, Key(k, vs[i].sequence), w) {
        assert i > 0 ==> vs[0].sequence > vs[i].sequence;
      }
      forall s: nat | Key(k, s) in Collect(t, w) ensures exists i :: 0 <= i < |kept| && kept[i].sequence == s {
        var i :| 0 <= i < |vs| && vs[i].sequence == s;
        assert kept[i].sequence == s;
      }
    }
  }

  lemma RemovingShrinks(t: Table, q: Key)
    requires q in t
    ensures |t - {q}| < |t|
  {
  }

  /** Versions of `k`, newest first. */
  function VersionList(t: Table, k: Bytes): seq<Hit>
    decreases |t|
  {
    var n := Newest(t, k);
    if n.None? then [] else
      var q := Key(k, n.value.sequence);
      RemovingShrinks(t, q);
      [n.value] + VersionList(t - {q}, k)
  }

  lemma {:induction false} VersionListLists(t: Table, k: Bytes)
    ensures Lists(VersionList(t, k), t, k)
    decreases |t|
  {
    var n := Newest(t, k);
    if n.Some? {
      var q := Key(k, n.value.sequence);
      RemovingShrinks(t, q);
      VersionListLists(t - {q}, k);
      ConsLists(t, k, VersionList(t - {q}, k));
    }
  }

  lemma ConsLists(t: Table, k: Bytes, tail: seq<Hit>)
    requires Newest(t, k).Some? && Lists(tail, t - {Key(k, Newest(t, k).value.sequence)}, k)
    ensures Lists([Newest(t, k).value] + tail, t, k)
  {
    var n := Newest(t, k).value;
    var rest, vs := t - {Key(k, n.sequence)}, [n] + tail;
    forall i | 0 <= i < |tail| ensures tail[i].sequence < n.sequence {
      assert Key(k, tail[i].sequence) in rest;
    }
    forall s: nat | Key(k, s) in t ensures exists i :: 0 <= i < |vs| && vs[i].sequence == s {
      ListedInCons(n, tail, rest, k, s);
    }
  }

  lemma ListedInCons(n: Hit, tail: seq<Hit>, rest: Table, k: Bytes, s: nat)
    requires Lists(tail, rest, k) && (s == n.sequence || Key(k, s) in rest)
    ensures exists i :: 0 <= i < |[n] + tail| && ([n] + tail)[i].sequence == s
  {
    var vs := [n] + tail;
    if s == n.sequence {
      assert vs[0].sequence == s;
    } else {
      var i :| 0 <= i < |tail| && tail[i].sequence == s;
      assert vs[i + 1].sequence == s;
    }
  }

  /** The table that holds exactly the listed versions of `k`. */
  function ListTable(vs: seq<Hit>, k: Bytes): Table {
    if vs == [] then map[] else ListTable(vs[..|vs| - 1], k)[Key(k, vs[|vs| - 1].sequence) := vs[|vs| - 1].val]
  }

  function OfUsers(t: Table, users: set<Bytes>): Table {
    map q | q in t && q.user in users :: t[q]
  }

  lemma OfUsersAdd(t: Table, users: set<Bytes>, k: Bytes)
    ensures OfUsers(t, users) + OfUsers(t, {k}) == OfUsers(t, users + {k})
  {
  }

  lemma OfAllUsers(t: Table, users: set<Bytes>, keys: seq<Bytes>)
    requires forall q :: q in t ==> q.user in keys
    requires forall i :: 0 <= i < |keys| ==> keys[i] in users
    ensures OfUsers(t, users) == t
  {
  }

  lemma {:induction false} ListTableMember(vs: seq<Hit>, k: Bytes, q: Key)
    requires Descending(vs)
    ensures q in ListTable(vs, k) <==> q.user == k && exists i :: 0 <= i < |vs| && vs[i].sequence == q.ts
    ensures forall i :: 0 <= i < |vs| && q == Key(k, vs[i].sequence) ==> ListTable(vs, k)[q] == vs[i].val
  {
    if vs != [] {
      ListTableMember(vs[..|vs| - 1], k, q);
    }
  }

  lemma ListTableIs(vs: seq<Hit>, t: Table, k: Bytes)
    requires Lists(vs, t, k)
    ensures ListTable(vs, k) == OfUsers(t, {k})
  {
    forall q: Key ensures q in ListTable(vs, k) <==> q in OfUsers(t, {k}) {
      ListTableMember(vs, k, q);
      assert q.user == k ==> q == Key(k, q.ts);
    }
    forall q: Key | q in ListTable(vs, k) ensures ListTable(vs, k)[q] == t[q] {
      ListTableMember(vs, k, q);
      var i :| 0 <= i < |vs| && vs[i].sequence == q.ts;
      assert q == Key(k, vs[i].sequence);
    }
  }

  // ---- The engine object ----

  datatype Result<+T> = Ok(value: T) | Err(error: Error)

  lemma FirstHitFrom(layers: seq<Table>, i: nat, k: Bytes, b: Bound)
    requires i < |layers|
    ensures FirstHit(layers[i..], k, b) ==
            var h := GetAt(layers[i], k, b); if h.Some? then h else FirstHit(layers[i + 1..], k, b)
  {
  }

  lemma HeldNext(e: EM.Engine, t: nat, keys: seq<Bytes>, i: nat, out: seq<(Bytes, Option<Bytes>)>)
    requires i < |keys|
    ensures out + Held(e, t, keys[i..]) == out + HeldAt(e, t, keys[i]) + Held(e, t, keys[i + 1..])
  {
    assert keys[i..][1..] == keys[i + 1..];
  }

  class Engine {
    const limits: Limits
    var wal: seq<Record>
    var next: nat
    var last: nat
    var mem: Table
    var memBytes: nat
    var tables: seq<Sst>
    var nextTable: nat
    var watermark: nat
    var intents: map<Bytes, Intent>
    var txns: map<nat, Meta>
    var nextTxn: nat

    ghost function StoreView(): Store
      reads this
    {
      Store(limits, wal, next, last, mem, memBytes, tables, nextTable, watermark)
    }

    ghost function View(): EM.Engine
      reads this
    {
      EM.Engine(StoreView(), intents, txns, nextTxn)
    }

    constructor (limits: Limits)
      ensures View() == FreshEngine(limits)
    {
      this.limits := limits;
      wal, next, last, mem, memBytes := [], 1, 0, map[], 0;
      tables, nextTable, watermark := [], 1, 0;
      intents, txns, nextTxn := map[], map[], 1;
    }

    /** Memtable first, then tables newest first; stop at the first visible version. */
    method ProbeSources(k: Bytes, b: Bound) returns (h: Option<Hit>)
      ensures h == Probe(StoreView(), k, b)
    {
      ghost var data := DataOf(tables);
      assert Layers(StoreView())[1..] == data;
      h := GetAt(mem, k, b);
      if h.Some? {
        return;
      }
      for i := 0 to |tables|
        invariant FirstHit(data, k, b) == FirstHit(data[i..], k, b)
      {
        FirstHitFrom(data, i, k, b);
        h := GetAt(tables[i].data, k, b);
        if h.Some? {
          return;
        }
      }
      h := None;
    }

    method GetInner(k: Bytes, b: Bound) returns (v: Option<Bytes>)
      ensures v == Read(StoreView(), k, b)
    {
      var h := ProbeSources(k, b);
      v := ValueOf(h);
    }

    method FlushMemtable()
      modifies this
      ensures View() == old(View()).(store := Flush(old(StoreView())))
    {
      if mem != map[] {
        tables := [Sst(nextTable, mem)] + tables;
        nextTable := nextTable + 1;
        mem := map[];
        memBytes := 0;
      }
    }

    method Write(k: Bytes, v: Option<Bytes>)
      modifies this
      ensures View() == old(View()).(store := WriteRaw(old(StoreView()), k, v))
    {
      wal := wal + [Record(next, k, v)];
      mem := mem[Key(k, next) := v];
      memBytes := memBytes + EntrySize(k, v);
      last := next;
      next := next + 1;
      if limits.memtableMaxBytes > 0 && memBytes >= limits.memtableMaxBytes {
        FlushMemtable();
      }
    }

    /** Public put (`Some`) and delete (`None`). */
    method PutOrDelete(k: Bytes, v: Option<Bytes>) returns (r: Result<nat>)
      modifies this
      ensures View() == WriteOp(old(View()), k, v).0
      ensures WriteOp(old(View()), k, v).1 == if r.Ok? then Wrote(r.value) else Failed(r.error)
    {
      if !KeyOk(limits, k) || !ValueOk(limits, v) {
        return Err(InvalidArgument);
      }
      r := Ok(next);
      Write(k, v);
    }

    /** Merge all live tables, group by key, and keep what the watermark allows. */
    method CompactTables()
      modifies this
      ensures View() == old(View()).(store := Compact(old(StoreView())))
    {
      if |tables| < 2 {
        return;
      }
      ghost var data := DataOf(tables);
      var merged: Table := map[];
      for i := |tables| downto 0
        invariant merged == Merge(data[i..])
        invariant unchanged(this)
      {
        assert data[i..][0] == tables[i].data && data[i..][1..] == data[i + 1..];
        merged := merged + tables[i].data;
      }
      assert data[0..] == data;
      var out := CollectByKey(merged, watermark);
      if out == map[] {
        tables := [];
      } else {
        tables := [Sst(nextTable, out)];
        nextTable := nextTable + 1;
      }
    }

    static method CollectKey(merged: Table, k: Bytes, w: nat) returns (out: Table)
      ensures out == OfUsers(Collect(merged, w), {k})
    {
      var vs := VersionList(merged, k);
      VersionListLists(merged, k);
      var kept := SelectVersionsForGc(vs, w);
      SelectionIsCollect(vs, kept, w, merged, k);
      ListTableIs(kept, Collect(merged, w), k);
      out := ListTable(kept, k);
    }

    static method CollectByKey(merged: Table, w: nat) returns (out: Table)
      ensures out == Collect(merged, w)
    {
      var keys := Sorted(set q | q in merged :: q.user);
      ghost var goal := Collect(merged, w);
      out := map[];
      ghost var done: set<Bytes> := {};
      for i := 0 to |keys|
        invariant out == OfUsers(goal, done)
        invariant forall j :: 0 <= j < i ==> keys[j] in done
      {
        var part := CollectKey(merged, keys[i], w);
        OfUsersAdd(goal, done, keys[i]);
        out := out + part;
        done := done + {keys[i]};
      }
      OfAllUsers(goal, done, keys);
    }

    // ---- Transactions ----

    method BeginTxn() returns (t: nat, snapshot: nat)
      modifies this
      ensures (View(), Began(t, snapshot)) == Step(old(View()), BeginOp)
    {
      t, snapshot := nextTxn, last;
      nextTxn := nextTxn + 1;
      txns := txns[t := Meta(snapshot, {})];
    }

    /** Own intent first, then the store at the transaction's snapshot. */
    method TxnRead(t: nat, k: Bytes) returns (r: Result<Option<Bytes>>)
      ensures Step(View(), TxnGet(t, k)) == (View(), if r.Ok? then Value(r.value) else Failed(r.error))
    {
      if t !in txns {
        return Err(InvalidArgument);
      }
      if k in intents && intents[k].txn == t {
        return Ok(intents[k].val);
      }
      var v := GetInner(k, At(txns[t].snapshot));
      r := Ok(v);
    }

    /** Another transaction's intent, or a version committed after the snapshot. */
    method CheckWriteConflict(t: nat, k: Bytes, snapshot: nat) returns (conflict: bool)
      ensures conflict <==> Conflicts(View(), t, k, snapshot)
    {
      if k in intents && intents[k].txn != t {
        return true;
      }
      var h := ProbeSources(k, Latest);
      conflict := h.Some? && h.value.sequence > snapshot;
    }

    /** Stage a put (`Some`) or delete (`None`) intent. */
    method StageIntent(t: nat, k: Bytes, v: Option<Bytes>) returns (r: Result<()>)
      modifies this
      ensures (View(), if r.Ok? then Done else Failed(r.error)) == StageOp(old(View()), t, k, v)
    {
      if !KeyOk(limits, k) || !ValueOk(limits, v) || t !in txns {
        return Err(InvalidArgument);
      }
      var conflict := CheckWriteConflict(t, k, txns[t].snapshot);
      if conflict {
        return Err(TxnConflict);
      }
      intents := intents[k := Intent(t, v)];
      txns := txns[t := txns[t].(keys := txns[t].keys + {k})];
      r := Ok(());
    }

    /** Re-check every staged key, in any order, then list the staged writes by key. */
    method PrepareCommit(t: nat) returns (r: Result<seq<(Bytes, Option<Bytes>)>>)
      ensures t !in txns ==> r == Err(InvalidArgument)
      ensures t in txns && CommitConflicts(View(), t) ==> r == Err(TxnConflict)
      ensures t in txns && !CommitConflicts(View(), t) ==> r == Ok(Mutations(View(), t))
    {
      if t !in txns {
        return Err(InvalidArgument);
      }
      var meta := txns[t];
      var unchecked := meta.keys;
      while unchecked != {}
        invariant unchecked <= meta.keys
        invariant forall k :: k in meta.keys && k !in unchecked ==> !Conflicts(View(), t, k, meta.snapshot)
        decreases |unchecked|
      {
        var k :| k in unchecked;
        var conflict := CheckWriteConflict(t, k, meta.snapshot);
        if conflict {
          return Err(TxnConflict);
        }
        unchecked := unchecked - {k};
      }
      var out := CollectHeld(t, Sorted(meta.keys));
      r := Ok(out);
    }

    /** The staged writes of `t` among `keys`, in their order. */
    method CollectHeld(t: nat, keys: seq<Bytes>) returns (out: seq<(Bytes, Option<Bytes>)>)
      ensures out == Held(View(), t, keys)
    {
      out := [];
      for i := 0 to |keys|
        invariant out + Held(View(), t, keys[i..]) == Held(View(), t, keys)
      {
        HeldNext(View(), t, keys, i, out);
        if keys[i] in intents && intents[keys[i]].txn == t {
          out := out + [(keys[i], intents[keys[i]].val)];
        }
      }
      assert keys[|keys|..] == [] && keys[0..] == keys;
    }

    /** Drop the transaction together with the intents it still holds. */
    method RemoveTxn(t: nat)
      requires t in txns
      modifies this
      ensures View() == Drop(old(View()), t)
    {
      var keys := txns[t].keys;
      txns := txns - {t};
      var left := keys;
      while left != {}
        invariant left <= keys
        invariant StoreView() == old(StoreView()) && txns == old(txns) - {t} && nextTxn == old(nextTxn)
        invariant intents == map k | k in old(intents) && !(k in keys && k !in left && old(intents)[k].txn == t) :: old(intents)[k]
        decreases |left|
      {
        var k :| k in left;
        if k in intents && intents[k].txn == t {
          intents := intents - {k};
        }
        left := left - {k};
      }
    }

    /** Write the mutations one by one; the commit timestamp is the last sequence. */
    method ApplyMutations(muts: seq<(Bytes, Option<Bytes>)>) returns (ts: nat)
      modifies this
      ensures View() == old(View()).(store := WriteAll(old(StoreView()), muts))
      ensures ts == last
    {
      for i := 0 to |muts|
        invariant intents == old(intents) && txns == old(txns) && nextTxn == old(nextTxn)
        invariant WriteAll(StoreView(), muts[i..]) == WriteAll(old(StoreView()), muts)
      {
        assert muts[i..][0] == muts[i] && muts[i..][1..] == muts[i + 1..];
        Write(muts[i].0, muts[i].1);
      }
      ts := last;
    }

    method CommitTxn(t: nat) returns (r: Result<nat>)
      modifies this
      ensures (View(), if r.Ok? then Wrote(r.value) else Failed(r.error)) == CommitOp(old(View()), t)
    {
      var muts := PrepareCommit(t);
      if muts.Err? {
        return Err(muts.error);
      }
      RemoveTxn(t);
      var ts := ApplyMutations(muts.value);
      r := Ok(ts);
    }

    method RollbackTxn(t: nat) returns (r: Result<()>)
      modifies this
      ensures (View(), if r.Ok? then Done else Failed(r.error)) == Step(old(View()), Rollback(t))
    {
      if t !in txns {
        return Err(InvalidArgument);
      }
      RemoveTxn(t);
      r := Ok(());
    }
  }
}
