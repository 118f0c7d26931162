/** The multi-version store as a value: log, memtable, newest-first tables and
    counters, with one function per storage operation, and its agreement with the log. */
module Storage {
  import opened ByteStrings
  import opened Versions
  import opened WriteAheadLog
  import opened SystemKeys

  datatype Limits = Limits(maxKeyLen: nat, maxValueLen: nat, memtableMaxBytes: nat)

  /** A live SSTable, taken as the exact set of versions written into it. */
  datatype Sst = Sst(id: nat, data: Table)

  datatype Store = Store(
    limits: Limits,
    wal: seq<Record>,
    next: nat,
    last: nat,
    mem: Table,
    memBytes: nat,
    tables: seq<Sst>,
    nextTable: nat,
    watermark: nat)

  function Fresh(limits: Limits): Store {
    Store(limits, [], 1, 0, map[], 0, [], 1, 0)
  }

  // ---- Reads ----

  function DataOf(tables: seq<Sst>): seq<Table> {
    seq(|tables|, i requires 0 <= i < |tables| => tables[i].data)
  }

  /** Sources in probe order: the memtable, then the tables newest first. */
  function Layers(st: Store): seq<Table> {
    [st.mem] + DataOf(st.tables)
  }

  function Probe(st: Store, k: Bytes, b: Bound): Option<Hit> {
    FirstHit(Layers(st), k, b)
  }

  function Read(st: Store, k: Bytes, b: Bound): Option<Bytes> {
    ValueOf(Probe(st, k, b))
  }

  // ---- Writes ----

  predicate KeyOk(limits: Limits, k: Bytes) {
    k != [] && |k| <= limits.maxKeyLen && !IsSystemKey(k)
  }

  predicate ValueOk(limits: Limits, v: Option<Bytes>) {
    v.Some? ==> |v.value| <= limits.maxValueLen
  }

  /** Size of one memtable entry: user key, eight timestamp bytes, value. */
  function EntrySize(k: Bytes, v: Option<Bytes>): nat {
    |k| + 8 + if v.Some? then |v.value| else 0
  }

  /** Log the write at the next sequence and insert it into the memtable. */
  function Append(st: Store, k: Bytes, v: Option<Bytes>): Store {
    st.(wal := st.wal + [Record(st.next, k, v)],
       mem := st.mem[Key(k, st.next) := v],
       memBytes := st.memBytes + EntrySize(k, v),
       last := st.next,
       next := st.next + 1)
  }

  function Flush(st: Store): Store {
    if st.mem == map[] then st else
      st.(tables := [Sst(st.nextTable, st.mem)] + st.tables,
         nextTable := st.nextTable + 1,
         mem := map[],
         memBytes := 0)
  }

  function AutoFlush(st: Store): Store {
    if st.limits.memtableMaxBytes > 0 && st.memBytes >= st.limits.memtableMaxBytes then Flush(st) else st
  }

  function WriteRaw(st: Store, k: Bytes, v: Option<Bytes>): Store {
    AutoFlush(Append(st, k, v))
  }

  /** Merge every live table under the watermark; nothing to do below two tables. */
  function Compact(st: Store): Store {
    if |st.tables| < 2 then st else
      var out := Collect(Merge(DataOf(st.tables)), st.watermark);
      if out == map[] then st.(tables := [])
      else st.(tables := [Sst(st.nextTable, out)], nextTable := st.nextTable + 1)
  }

  function SetWatermark(st: Store, w: nat): Store {
    if w > st.watermark then st.(watermark := w) else st
  }

  function EnsureMinSequence(st: Store, min: nat): Store {
    if min > st.next then st.(next := min) else st
  }

  function WriteAll(st: Store, muts: seq<(Bytes, Option<Bytes>)>): Store
    decreases |muts|
  {
    if muts == [] then st else WriteAll(WriteRaw(st, muts[0].0, muts[0].1), muts[1..])
  }

  // ---- What every operation keeps ----

  ghost predicate TablesOk(tables: seq<Sst>) {
    forall i, j :: 0 <= i < j < |tables| ==>
      && tables[i].id >= tables[j].id
      && (tables[i].id == tables[j].id ==> tables[i].data == tables[j].data)
      && Above(tables[i].data, tables[j].data)
  }

  /** Everything the sources hold between them. */
  function HeldTable(st: Store): Table {
    Merge(DataOf(st.tables)) + st.mem
  }

  ghost predicate LogOk(st: Store) {
    && Increasing(st.wal)
    && (forall i :: 0 <= i < |st.wal| ==> 0 < st.wal[i].sequence)
    && st.last == Last(st.wal) < st.next
  }

  ghost predicate LayersOk(st: Store) {
    && Part(st.mem, LogTable(st.wal))
    && (forall i :: 0 <= i < |st.tables| ==>
          && st.tables[i].id < st.nextTable
          && Part(st.tables[i].data, LogTable(st.wal))
          && Above(st.mem, st.tables[i].data))
    && TablesOk(st.tables)
  }

  ghost predicate StoreOk(st: Store) {
    LogOk(st) && LayersOk(st) && AllKept(HeldTable(st), LogTable(st.wal))
  }

  /** Nothing has been collected: the sources together hold the whole log. */
  ghost predicate Complete(st: Store) {
    StoreOk(st) && HeldTable(st) == LogTable(st.wal)
  }

  lemma LayersAreOrdered(st: Store)
    requires LayersOk(st)
    ensures Layered(Layers(st)) && AllPart(Layers(st), LogTable(st.wal))
  {
  }

  /** A first hit over the sources is the newest version any of them holds. */
  lemma ProbeIsNewestHeld(st: Store, k: Bytes, b: Bound)
    requires LayersOk(st)
    ensures Probe(st, k, b) == GetAt(HeldTable(st), k, b)
  {
    LayersAreOrdered(st);
    FirstHitIsNewest(Layers(st), LogTable(st.wal), k, b);
    assert Layers(st)[1..] == DataOf(st.tables);
    assert Merge(Layers(st)) == HeldTable(st);
  }

  lemma MergedTables(st: Store)
    requires LayersOk(st)
    ensures var m := Merge(DataOf(st.tables));
            Part(m, LogTable(st.wal)) && Above(st.mem, m) && Part(HeldTable(st), LogTable(st.wal))
  {
    var data := DataOf(st.tables);
    MergePart(data, LogTable(st.wal));
    forall k, s: nat, t: nat | Key(k, s) in st.mem && Key(k, t) in Merge(data) && s < t ensures Key(k, t) in st.mem {
      MergeMember(data, Key(k, t));
      var i :| 0 <= i < |data| && Key(k, t) in data[i];
      assert Above(st.mem, st.tables[i].data);
    }
  }

  /** First-hit lookup returns exactly the newest logged version under the bound. */
  lemma ReadRefinesLog(st: Store, k: Bytes, b: Bound)
    requires Complete(st)
    ensures Probe(st, k, b) == GetAt(LogTable(st.wal), k, b)
  {
    ProbeIsNewestHeld(st, k, b);
  }

  /** Whatever was collected, a latest read agrees with the replayed log. */
  lemma LatestReadRefinesLog(st: Store, k: Bytes)
    requires StoreOk(st)
    ensures Read(st, k, Latest) == Lookup(Contents(st.wal), k)
  {
    ProbeIsNewestHeld(st, k, Latest);
    MergedTables(st);
    KeptReadsLatest(HeldTable(st), LogTable(st.wal), k);
    NewestIsContents(st.wal, k);
  }

  /** The conflict check sees the newest logged version of a key unless that version
      was collected. */
  lemma ConflictCheckExact(st: Store, k: Bytes)
    requires StoreOk(st)
    ensures var n := Newest(LogTable(st.wal), k);
            Probe(st, k, Latest) == n <==> (n.None? || Key(k, n.value.sequence) in HeldTable(st))
  {
    ProbeIsNewestHeld(st, k, Latest);
    MergedTables(st);
    SeesNewestExactly(HeldTable(st), LogTable(st.wal), k);
  }

  /** The next sequence is above every logged one. */
  lemma NextIsFresh(st: Store)
    requires LogOk(st)
    ensures forall p :: p in LogTable(st.wal) ==> p.ts < st.next
  {
    forall p | p in LogTable(st.wal) ensures p.ts < st.next {
      BelowLast(st.wal, p);
    }
  }

  lemma AppendKeepsLog(st: Store, k: Bytes, v: Option<Bytes>)
    requires LogOk(st)
    ensures LogOk(Append(st, k, v))
  {
  }

  lemma AppendKeepsLayers(st: Store, k: Bytes, v: Option<Bytes>)
    requires LogOk(st) && LayersOk(st)
    ensures LayersOk(Append(st, k, v))
  {
    NextIsFresh(st);
    LogTableAppend(st.wal, Record(st.next, k, v));
    var a, q := Append(st, k, v), Key(k, st.next);
    forall i | 0 <= i < |a.tables| ensures Above(a.mem, a.tables[i].data) && Part(a.tables[i].data, LogTable(a.wal)) {
      assert Part(st.tables[i].data, LogTable(st.wal));
      AboveAfterInsert(st.mem, st.tables[i].data, q, v);
    }
  }

  lemma AppendHeld(st: Store, k: Bytes, v: Option<Bytes>)
    ensures HeldTable(Append(st, k, v)) == HeldTable(st)[Key(k, st.next) := v]
    ensures LogTable(Append(st, k, v).wal) == LogTable(st.wal)[Key(k, st.next) := v]
  {
    LogTableAppend(st.wal, Record(st.next, k, v));
    InsertIntoTop(Merge(DataOf(st.tables)), st.mem, Key(k, st.next), v);
  }

  lemma InsertIntoTop(low: Table, top: Table, q: Key, v: Option<Bytes>)
    ensures low + top[q := v] == (low + top)[q := v]
  {
  }

  lemma AppendKeeps(st: Store, k: Bytes, v: Option<Bytes>)
    requires StoreOk(st)
    ensures StoreOk(Append(st, k, v))
    ensures Complete(st) ==> Complete(Append(st, k, v))
  {
    AppendKeepsLog(st, k, v);
    AppendKeepsLayers(st, k, v);
    AppendHeld(st, k, v);
    NextIsFresh(st);
    AllKeptAfterInsert(HeldTable(st), LogTable(st.wal), Key(k, st.next), v);
  }

  lemma FlushKeeps(st: Store)
    requires StoreOk(st)
    ensures StoreOk(Flush(st))
    ensures Complete(st) ==> Complete(Flush(st))
  {
    if st.mem != map[] {
      var f := Flush(st);
      assert f.tables[0] == Sst(st.nextTable, st.mem) && f.tables[1..] == st.tables;
      assert DataOf(f.tables)[0] == st.mem && DataOf(f.tables)[1..] == DataOf(st.tables);
      assert HeldTable(f) == HeldTable(st);
    }
  }

  lemma WriteRawKeeps(st: Store, k: Bytes, v: Option<Bytes>)
    requires StoreOk(st)
    ensures StoreOk(WriteRaw(st, k, v))
    ensures Complete(st) ==> Complete(WriteRaw(st, k, v))
  {
    AppendKeeps(st, k, v);
    FlushKeeps(Append(st, k, v));
  }

  lemma CompactKeepsLayers(st: Store)
    requires LogOk(st) && LayersOk(st)
    ensures LogOk(Compact(st)) && LayersOk(Compact(st))
  {
    if |st.tables| >= 2 {
      MergedTables(st);
      OneTableOk(st, Merge(DataOf(st.tables)), Collect(Merge(DataOf(st.tables)), st.watermark));
    }
  }

  /** Any part of the merged tables may replace them. */
  lemma OneTableOk(st: Store, m: Table, out: Table)
    requires LogOk(st) && LayersOk(st) && Part(m, LogTable(st.wal)) && Above(st.mem, m) && Part(out, m)
    ensures LayersOk(st.(tables := [])) && LayersOk(st.(tables := [Sst(st.nextTable, out)], nextTable := st.nextTable + 1))
  {
  }

  lemma SyncKeeps(st: Store, min: nat)
    requires StoreOk(st)
    ensures StoreOk(EnsureMinSequence(st, min))
    ensures Complete(st) ==> Complete(EnsureMinSequence(st, min))
  {
  }

  lemma CompactKeeps(st: Store)
    requires StoreOk(st)
    ensures StoreOk(Compact(st))
    ensures Complete(st) && st.watermark == 0 ==> Complete(Compact(st))
  {
    CompactKeepsLayers(st);
    if |st.tables| >= 2 {
      var m, all := Merge(DataOf(st.tables)), LogTable(st.wal);
      MergedTables(st);
      CollectAtZero(m);
      CompactedHeld(st);
      AllKeptAfterCollect(st.mem, m, all, st.watermark);
    }
  }

  lemma CompactedHeld(st: Store)
    requires |st.tables| >= 2
    ensures HeldTable(Compact(st)) == Collect(Merge(DataOf(st.tables)), st.watermark) + st.mem
  {
    CompactedMerge(st);
  }

  lemma MergeOne(out: Table)
    ensures Merge([out]) == out
  {
  }

  /** Merging all tables preserves every latest read, whatever the watermark. */
  lemma CompactionKeepsLatestReads(st: Store, k: Bytes)
    requires StoreOk(st)
    ensures Read(Compact(st), k, Latest) == Read(st, k, Latest)
  {
    CompactKeeps(st);
    LatestReadRefinesLog(st, k);
    LatestReadRefinesLog(Compact(st), k);
  }

  lemma ProbeBelow(st: Store, k: Bytes, b: Bound)
    requires LayersOk(st)
    ensures Probe(st, k, b) == if GetAt(st.mem, k, b).Some? then GetAt(st.mem, k, b) else GetAt(Merge(DataOf(st.tables)), k, b)
  {
    var data := DataOf(st.tables);
    LayersAreOrdered(st);
    assert Layers(st)[1..] == data;
    assert Layered(data) && AllPart(data, LogTable(st.wal)) by {
      assert forall i :: 0 <= i < |data| ==> data[i] == Layers(st)[i + 1];
    }
    FirstHitIsNewest(data, LogTable(st.wal), k, b);
  }

  /** A snapshot read at or above the watermark survives a compaction exactly when the
      memtable answers it, or what the tables held for it was nothing, a tombstone,
      their newest version of the key, or a version at or above the watermark. */
  lemma CompactSnapshotExact(st: Store, k: Bytes, ts: nat)
    requires LogOk(st) && LayersOk(st) && |st.tables| >= 2 && st.watermark <= ts
    ensures var m := Merge(DataOf(st.tables));
            var h := GetAt(m, k, At(ts));
            Read(Compact(st), k, At(ts)) == Read(st, k, At(ts))
            <==> (GetAt(st.mem, k, At(ts)).Some? || h.None? || h.value.val.None? || h.value.sequence >= st.watermark || h == Newest(m, k))
  {
    var m := Merge(DataOf(st.tables));
    ProbeBelow(st, k, At(ts));
    CompactKeepsLayers(st);
    ProbeBelow(Compact(st), k, At(ts));
    CollectSnapshotExact(m, st.watermark, k, ts);
    CompactedMerge(st);
  }

  /** Such a read can be lost: `k` at 1 and `l` at 2 in one table, `k` again at 3 in the
      next, watermark 2. Compaction drops the version of `k` that a snapshot at 2 reads. */
  lemma WatermarkReadLost(limits: Limits, k: Bytes, v: Bytes, newer: Bytes, l: Bytes, w: Bytes)
    requires limits.memtableMaxBytes == 0 && k != l
    ensures var base := Flush(WriteRaw(WriteRaw(Fresh(limits), k, Some(v)), l, Some(w)));
            var st := SetWatermark(Flush(WriteRaw(base, k, Some(newer))), 2);
            && StoreOk(st) && st.watermark <= 2 <= st.last
            && Read(st, k, At(2)) == Some(v) && Read(Compact(st), k, At(2)) == None
  {
    var b := WriteRaw(WriteRaw(Fresh(limits), k, Some(v)), l, Some(w));
    var c := WriteRaw(Flush(b), k, Some(newer));
    TwoFlushes(limits, k, v, newer, l, w);
    FlushesKeep(limits, k, Some(v), l, Some(w), Some(newer));
    ReadIsLost(SetWatermark(Flush(c), 2), b.mem, c.mem, k, v, l);
  }

  lemma FlushesKeep(limits: Limits, k: Bytes, v: Option<Bytes>, l: Bytes, w: Option<Bytes>, newer: Option<Bytes>)
    ensures StoreOk(Flush(WriteRaw(Flush(WriteRaw(WriteRaw(Fresh(limits), k, v), l, w)), k, newer)))
  {
    var a := WriteRaw(Fresh(limits), k, v);
    var b := WriteRaw(a, l, w);
    WriteRawKeeps(Fresh(limits), k, v);
    WriteRawKeeps(a, l, w);
    FlushKeeps(b);
    WriteRawKeeps(Flush(b), k, newer);
    FlushKeeps(WriteRaw(Flush(b), k, newer));
  }

  lemma ReadIsLost(st: Store, low: Table, top: Table, k: Bytes, v: Bytes, l: Bytes)
    requires StoreOk(st) && st.mem == map[] && st.tables == [Sst(2, top), Sst(1, low)] && st.watermark == 2
    requires k != l && low.Keys == {Key(k, 1), Key(l, 2)} && top.Keys == {Key(k, 3)} && low[Key(k, 1)] == Some(v)
    ensures Read(st, k, At(2)) == Some(v) && Read(Compact(st), k, At(2)) == None
  {
    OldVersionHit(low, top, k, v, l);
    assert Layers(st) == [map[], top, low];
    OldVersionLost(low, top, k, l);
    LostBelow(st, low, top, k);
  }

  lemma TwoFlushes(limits: Limits, k: Bytes, v: Bytes, newer: Bytes, l: Bytes, w: Bytes)
    requires limits.memtableMaxBytes == 0 && k != l
    ensures var b := WriteRaw(WriteRaw(Fresh(limits), k, Some(v)), l, Some(w));
            var c := WriteRaw(Flush(b), k, Some(newer));
            && b.mem.Keys == {Key(k, 1), Key(l, 2)} && c.mem.Keys == {Key(k, 3)} && b.mem[Key(k, 1)] == Some(v)
            && Flush(c).tables == [Sst(2, c.mem), Sst(1, b.mem)] && Flush(c).mem == map[]
            && Flush(c).watermark == 0 && Flush(c).last == 3
  {
    var a := Append(Fresh(limits), k, Some(v));
    var b := Append(a, l, Some(w));
    assert Key(l, 2) in b.mem && b.mem.Keys == {Key(k, 1), Key(l, 2)};
    var c := Append(Flush(b), k, Some(newer));
    assert Key(k, 3) in c.mem && c.mem.Keys == {Key(k, 3)};
  }

  lemma OldVersionHit(low: Table, top: Table, k: Bytes, v: Bytes, l: Bytes)
    requires k != l && low.Keys == {Key(k, 1), Key(l, 2)} && top.Keys == {Key(k, 3)} && low[Key(k, 1)] == Some(v)
    ensures FirstHit([map[], top, low], k, At(2)) == Some(Hit(1, Some(v)))
  {
    var layers: seq<Table> := [map[], top, low];
    assert layers[1..] == [top, low] && [top, low][1..] == [low];
    assert Key(k, 1) in low;
    assert FirstHit([low], k, At(2)) == GetAt(low, k, At(2)) == Some(Hit(1, Some(v)));
    assert GetAt(top, k, At(2)) == None;
    assert FirstHit([top, low], k, At(2)) == FirstHit([low], k, At(2));
  }

  lemma OldVersionLost(low: Table, top: Table, k: Bytes, l: Bytes)
    requires k != l && low.Keys == {Key(k, 1), Key(l, 2)} && top.Keys == {Key(k, 3)}
    ensures GetAt(Collect(Merge([top, low]), 2), k, At(2)) == None
  {
    var m := Merge([top, low]);
    assert [top, low][1..] == [low];
    MergeOne(low);
    assert m.Keys == {Key(k, 1), Key(l, 2), Key(k, 3)};
    assert Key(k, 3) in m && Newest(m, k).value.sequence == 3;
    assert Key(k, 1) !in Collect(m, 2);
  }

  lemma LostBelow(st: Store, low: Table, top: Table, k: Bytes)
    requires StoreOk(st) && st.mem == map[] && st.tables == [Sst(2, top), Sst(1, low)] && st.watermark == 2
    requires GetAt(Collect(Merge([top, low]), 2), k, At(2)) == None
    ensures Read(Compact(st), k, At(2)) == None
  {
    assert DataOf(st.tables) == [top, low];
    CompactKeepsLayers(st);
    CompactedMerge(st);
    ProbeBelow(Compact(st), k, At(2));
  }

  lemma CompactedMerge(st: Store)
    requires |st.tables| >= 2
    ensures Merge(DataOf(Compact(st).tables)) == Collect(Merge(DataOf(st.tables)), st.watermark)
  {
    var out, c := Collect(Merge(DataOf(st.tables)), st.watermark), Compact(st);
    if out == map[] {
      assert DataOf(c.tables) == [];
    } else {
      assert DataOf(c.tables) == [out];
      MergeOne(out);
    }
  }
}
