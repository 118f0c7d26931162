/** Flush, compaction and open as they drive the disk, step by step. */
module DiskPath {
  import opened ByteStrings
  import opened Versions
  import opened WriteAheadLog
  import opened Storage
  import opened SimDisk
  import opened CrashRecovery

  method WriteTable(disk: SimDisk, id: nat, data: Table)
    modifies disk
    ensures disk.issued == old(disk.issued) + PublishTable(id, data)
    ensures disk.files == DoAll(old(disk.files), PublishTable(id, data))
  {
    disk.WriteAt(SstTmp(id), 0, [Image(data)]);
    var synced := disk.FsyncFile(SstTmp(id));
    var renamed := disk.Rename(SstTmp(id), SstFile(id));
    disk.FsyncDir();
    Unfold4(old(disk.files), PublishTable(id, data));
  }

  method WriteEdits(disk: SimDisk, edits: seq<Edit>)
    modifies disk
    ensures disk.issued == old(disk.issued) + PublishEdits(edits)
    ensures disk.files == DoAll(old(disk.files), PublishEdits(edits))
  {
    assert edits[0..] == edits;
    for i := 0 to |edits|
      invariant disk.issued + Appends(edits[i..]) == old(disk.issued) + Appends(edits)
      invariant DoAll(disk.files, Appends(edits[i..])) == DoAll(old(disk.files), Appends(edits))
    {
      var ops := Appends(edits[i..]);
      assert edits[i..][1..] == edits[i + 1..];
      assert ops[0] == AppendTo(Manifest, [Edited(edits[i])]) && ops[1..] == Appends(edits[i + 1..]);
      assert disk.issued + ops == disk.issued + [ops[0]] + ops[1..];
      disk.AppendTo(Manifest, [Edited(edits[i])]);
    }
    DoConcat(old(disk.files), Appends(edits), [FsyncFile(Manifest)]);
    DoOne(disk.files, FsyncFile(Manifest));
    assert edits[|edits|..] == [];
    assert disk.issued == old(disk.issued) + Appends(edits);
    var synced := disk.FsyncFile(Manifest);
    assert old(disk.issued) + Appends(edits) + [FsyncFile(Manifest)] == old(disk.issued) + PublishEdits(edits);
  }

  method WriteCurrent(disk: SimDisk)
    modifies disk
    ensures disk.issued == old(disk.issued) + PublishCurrent()
    ensures disk.files == DoAll(old(disk.files), PublishCurrent())
  {
    disk.WriteAt(CurrentTmp, 0, [ManifestName]);
    var synced := disk.FsyncFile(CurrentTmp);
    var renamed := disk.Rename(CurrentTmp, Current);
    disk.FsyncDir();
    Unfold4(old(disk.files), PublishCurrent());
  }

  lemma Unfold4(d: Disk, ops: seq<DiskOp>)
    requires |ops| == 4 && ops[3] == FsyncDir
    ensures DoAll(d, ops) == Do(Do(Do(d, ops[0]), ops[1]), ops[2])
  {
    assert ops[1..][1..] == ops[2..] && ops[2..][1..] == [ops[3]];
    var d3 := Do(Do(Do(d, ops[0]), ops[1]), ops[2]);
    DoOne(d3, ops[3]);
    assert DoAll(d, ops) == DoAll(Do(d, ops[0]), ops[1..]) == DoAll(Do(Do(d, ops[0]), ops[1]), ops[2..]) == DoAll(d3, [ops[3]]);
  }

  /** The edits, then CURRENT. */
  method Announce(disk: SimDisk, edits: seq<Edit>)
    modifies disk
    ensures disk.issued == old(disk.issued) + (PublishEdits(edits) + PublishCurrent())
    ensures disk.files == DoAll(old(disk.files), PublishEdits(edits) + PublishCurrent())
  {
    DoConcat(disk.files, PublishEdits(edits), PublishCurrent());
    WriteEdits(disk, edits);
    WriteCurrent(disk);
  }

  /** The table file before the edits that name it, and CURRENT last. */
  method PublishAll(disk: SimDisk, id: nat, data: Table, edits: seq<Edit>)
    modifies disk
    ensures disk.issued == old(disk.issued) + (PublishTable(id, data) + PublishEdits(edits) + PublishCurrent())
    ensures disk.files == DoAll(old(disk.files), PublishTable(id, data) + PublishEdits(edits) + PublishCurrent())
  {
    ghost var a, b := PublishTable(id, data), PublishEdits(edits) + PublishCurrent();
    assert a + PublishEdits(edits) + PublishCurrent() == a + b;
    DoConcat(disk.files, a, b);
    WriteTable(disk, id, data);
    Announce(disk, edits);
  }

  method FlushMemtable(disk: SimDisk, st: Store) returns (r: Store)
    modifies disk
    ensures disk.issued == old(disk.issued) + FlushScript(st)
    ensures r == Flush(st) && disk.files == DoAll(old(disk.files), FlushScript(st))
  {
    if st.mem == map[] {
      return st;
    }
    PublishAll(disk, st.nextTable, st.mem, [CreateTable(st.nextTable), SetLastSequence(st.last)]);
    r := st.(tables := [Sst(st.nextTable, st.mem)] + st.tables, nextTable := st.nextTable + 1, mem := map[], memBytes := 0);
  }

  /** A write is durable in the log before it is in the memtable; then the automatic flush. */
  method LogAndApply(disk: SimDisk, st: Store, k: Bytes, v: Option<Bytes>) returns (r: Store)
    modifies disk
    ensures disk.issued == old(disk.issued) + Steps(st, Put(k, v))
    ensures r == WriteRaw(st, k, v) && disk.files == DoAll(old(disk.files), Steps(st, Put(k, v)))
  {
    var rec := Record(st.next, k, v);
    PutScript(st, k, v, disk.files);
    WriteLog(disk, rec);
    r := Append(st, k, v);
    if st.limits.memtableMaxBytes > 0 && r.memBytes >= st.limits.memtableMaxBytes {
      r := FlushMemtable(disk, r);
    }
  }

  method WriteLog(disk: SimDisk, rec: Record)
    modifies disk
    ensures disk.issued == old(disk.issued) + LogScript(rec) && disk.files == DoAll(old(disk.files), LogScript(rec))
  {
    Unfold2(disk.files, LogScript(rec));
    disk.AppendTo(Wal, [WalRecord(rec)]);
    var synced := disk.FsyncFile(Wal);
  }

  lemma PutScript(st: Store, k: Bytes, v: Option<Bytes>, d: Disk)
    ensures var a, first := Append(st, k, v), LogScript(Record(st.next, k, v));
            if st.limits.memtableMaxBytes > 0 && a.memBytes >= st.limits.memtableMaxBytes
            then Steps(st, Put(k, v)) == first + FlushScript(a) && DoAll(d, first + FlushScript(a)) == DoAll(DoAll(d, first), FlushScript(a))
            else Steps(st, Put(k, v)) == first
  {
    NotEmptied(st, k, v);
    DoConcat(d, LogScript(Record(st.next, k, v)), FlushScript(Append(st, k, v)));
  }

  lemma Unfold2(d: Disk, ops: seq<DiskOp>)
    requires |ops| == 2
    ensures DoAll(d, ops) == Do(Do(d, ops[0]), ops[1])
  {
    DoOne(Do(d, ops[0]), ops[1]);
    assert ops[1..] == [ops[1]];
  }

  lemma NotEmptied(st: Store, k: Bytes, v: Option<Bytes>)
    ensures Flush(Append(st, k, v)) != Append(st, k, v)
  {
    assert Key(k, st.next) in Append(st, k, v).mem;
  }

  /** One delete edit per merged table, oldest first. */
  method DeleteEdits(tables: seq<Sst>) returns (edits: seq<Edit>)
    ensures edits == Deletes(tables)
  {
    edits := [];
    var i := |tables|;
    while i > 0
      invariant 0 <= i <= |tables| && edits == Deletes(tables[i..])
    {
      i := i - 1;
      assert tables[i..][1..] == tables[i + 1..];
      edits := edits + [DeleteTable(tables[i].id)];
    }
    assert tables[0..] == tables;
  }

  method CompactTables(disk: SimDisk, st: Store) returns (r: Store)
    modifies disk
    ensures disk.issued == old(disk.issued) + CompactScript(st)
    ensures r == Compact(st) && disk.files == DoAll(old(disk.files), CompactScript(st))
  {
    if |st.tables| < 2 {
      return st;
    }
    var out := Collect(Merge(DataOf(st.tables)), st.watermark);
    var deletes := DeleteEdits(st.tables);
    if out == map[] {
      var edits := deletes + [SetLastSequence(st.last)];
      Announce(disk, edits);
      r := st.(tables := []);
    } else {
      var edits := [CreateTable(st.nextTable)] + deletes + [SetLastSequence(st.last)];
      PublishAll(disk, st.nextTable, out, edits);
      r := st.(tables := [Sst(st.nextTable, out)], nextTable := st.nextTable + 1);
    }
  }

  /** Replays the log records into a fresh memtable, counting their bytes. */
  method ReplayLog(wal: seq<Record>) returns (mem: Table, bytes: nat)
    ensures mem == LogTable(wal) && bytes == LogBytes(wal)
  {
    mem, bytes := map[], 0;
    for i := 0 to |wal|
      invariant mem == LogTable(wal[..i]) && bytes == LogBytes(wal[..i])
    {
      assert wal[..i + 1][..i] == wal[..i];
      mem := mem[Key(wal[i].key, wal[i].sequence) := wal[i].val];
      bytes := bytes + EntrySize(wal[i].key, wal[i].val);
    }
    assert wal[..|wal|] == wal;
  }

  method ReadRecords(items: seq<Item>) returns (wal: Option<seq<Record>>)
    ensures wal == ReadLog(items)
  {
    wal := Some([]);
    for i := 0 to |items|
      invariant wal == ReadLog(items[..i])
    {
      assert items[..i + 1][..i] == items[..i];
      wal := if wal.Some? && items[i].WalRecord? then Some(wal.value + [items[i].rec]) else None;
    }
    assert items[..|items|] == items;
  }

  method ReplayEdits(items: seq<Item>) returns (ids: seq<nat>)
    ensures ids == LiveIds([], items)
  {
    ids := [];
    assert items[0..] == items;
    for i := 0 to |items|
      invariant LiveIds(ids, items[i..]) == LiveIds([], items)
    {
      assert items[i..][1..] == items[i + 1..];
      ids := EditIds(ids, items[i]);
    }
  }

  function SortNewest(tables: seq<Sst>): seq<Sst> {
    if tables == [] then [] else InsertNewest(tables[0], SortNewest(tables[1..]))
  }

  function LoadEach(d: Disk, ids: seq<nat>): Option<seq<Sst>> {
    if ids == [] then Some([]) else
      var t, rest := LoadTable(d, ids[0]), LoadEach(d, ids[1..]);
      if t.None? || rest.None? then None else Some([t.value] + rest.value)
  }

  /** Loading in manifest order and then sorting newest first. */
  lemma {:induction false} SortedAfterLoading(d: Disk, ids: seq<nat>)
    ensures LoadAll(d, ids) == match LoadEach(d, ids) { case None => None case Some(ts) => Some(SortNewest(ts)) }
    decreases |ids|
  {
    if ids != [] {
      SortedAfterLoading(d, ids[1..]);
    }
  }

  method LoadLiveTables(d: Disk) returns (r: Option<seq<Sst>>)
    ensures r == LoadTables(d)
  {
    if Current !in d || d[Current].written == [] {
      return Some([]);
    }
    if d[Current].written != [ManifestName] {
      return None;
    }
    if Manifest !in d {
      return Some([]);
    }
    var ids := ReplayEdits(d[Manifest].written);
    SortedAfterLoading(d, ids);
    var tables: seq<Sst> := [];
    assert ids[0..] == ids;
    JoinedNone(LoadEach(d, ids));
    for i := 0 to |ids|
      invariant LoadEach(d, ids) == Joined(tables, LoadEach(d, ids[i..]))
    {
      assert ids[i..][1..] == ids[i + 1..];
      var t := LoadTable(d, ids[i]);
      if t.None? {
        return None;
      }
      JoinedStep(tables, t.value, LoadEach(d, ids[i + 1..]));
      tables := tables + [t.value];
    }
    assert tables + [] == tables;
    r := Some(SortNewest(tables));
  }

  ghost function Joined(done: seq<Sst>, rest: Option<seq<Sst>>): Option<seq<Sst>> {
    match rest
    case None => None
    case Some(ts) => Some(done + ts)
  }

  lemma JoinedNone(rest: Option<seq<Sst>>)
    ensures Joined([], rest) == rest
  {
    assert rest.Some? ==> [] + rest.value == rest.value;
  }

  lemma JoinedStep(done: seq<Sst>, t: Sst, rest: Option<seq<Sst>>)
    ensures Joined(done + [t], rest) == Joined(done, if rest.None? then None else Some([t] + rest.value))
  {
    assert rest.Some? ==> (done + [t]) + rest.value == done + ([t] + rest.value);
  }

  method RemoveTemps(disk: SimDisk)
    modifies disk
    ensures disk.files == Cleaned(old(disk.files))
  {
    var temps := set p | p in disk.files && IsTemp(p);
    while temps != {}
      invariant forall p :: p in temps <==> p in disk.files && IsTemp(p)
      invariant Cleaned(disk.files) == Cleaned(old(disk.files))
      decreases |temps|
    {
      var p :| p in temps;
      disk.RemoveFile(p);
      temps := temps - {p};
    }
    assert Cleaned(disk.files) == disk.files;
  }

  /** Reopens the engine; None is the error of an unreadable table. */
  method OpenEngine(disk: SimDisk, limits: Limits) returns (r: Option<Store>)
    modifies disk
    ensures disk.files == Cleaned(old(disk.files)) && r == Open(limits, disk.files)
  {
    RemoveTemps(disk);
    var wal := ReadRecords(FileAt(disk.files, Wal).written);
    var tables := LoadLiveTables(disk.files);
    if wal.None? || tables.None? {
      return None;
    }
    var mem, bytes := ReplayLog(wal.value);
    r := Some(Store(limits, wal.value, Last(wal.value) + 1, Last(wal.value), mem, bytes, tables.value, NextTable(tables.value), 0));
  }
}
