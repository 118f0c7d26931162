/** Disk steps of put, flush and compaction, a crash after any of them, and reopening. */
module CrashRecovery {
  import opened ByteStrings
  import opened Versions
  import opened WriteAheadLog
  import opened Storage
  import opened SimDisk

  // ---- The disk steps of each operation ----

  function PublishTable(id: nat, data: Table): seq<DiskOp> {
    [WriteAt(SstTmp(id), 0, [Image(data)]), FsyncFile(SstTmp(id)), Rename(SstTmp(id), SstFile(id)), FsyncDir]
  }

  function Appends(edits: seq<Edit>): seq<DiskOp> {
    if edits == [] then [] else [AppendTo(Manifest, [Edited(edits[0])])] + Appends(edits[1..])
  }

  function PublishEdits(edits: seq<Edit>): seq<DiskOp> {
    Appends(edits) + [FsyncFile(Manifest)]
  }

  function PublishCurrent(): seq<DiskOp> {
    [WriteAt(CurrentTmp, 0, [ManifestName]), FsyncFile(CurrentTmp), Rename(CurrentTmp, Current), FsyncDir]
  }

  function LogScript(r: Record): seq<DiskOp> {
    [AppendTo(Wal, [WalRecord(r)]), FsyncFile(Wal)]
  }

  function FlushScript(st: Store): seq<DiskOp> {
    if st.mem == map[] then [] else
      PublishTable(st.nextTable, st.mem)
      + PublishEdits([CreateTable(st.nextTable), SetLastSequence(st.last)]) + PublishCurrent()
  }

  function Deletes(tables: seq<Sst>): seq<Edit> {
    if tables == [] then [] else Deletes(tables[1..]) + [DeleteTable(tables[0].id)]
  }

  function CompactScript(st: Store): seq<DiskOp> {
    if |st.tables| < 2 then [] else
      var out := Collect(Merge(DataOf(st.tables)), st.watermark);
      if out == map[] then
        PublishEdits(Deletes(st.tables) + [SetLastSequence(st.last)]) + PublishCurrent()
      else
        PublishTable(st.nextTable, out)
        + PublishEdits([CreateTable(st.nextTable)] + Deletes(st.tables) + [SetLastSequence(st.last)]) + PublishCurrent()
  }

  datatype Job =
    | Put(key: Bytes, val: Option<Bytes>)
    | FlushNow
    | CompactNow
    | Advance(watermark: nat)
    | Sync(min: nat)

  function Steps(st: Store, job: Job): seq<DiskOp> {
    match job
    case Put(k, v) =>
      var a := Append(st, k, v);
      LogScript(Record(st.next, k, v)) + (if AutoFlush(a) == a then [] else FlushScript(a))
    case FlushNow => FlushScript(st)
    case CompactNow => CompactScript(st)
    case _ => []
  }

  /** The engine after the operation returns. */
  function Result(st: Store, job: Job): Store {
    match job
    case Put(k, v) => WriteRaw(st, k, v)
    case FlushNow => Flush(st)
    case CompactNow => Compact(st)
    case Advance(w) => SetWatermark(st, w)
    case Sync(min) => EnsureMinSequence(st, min)
  }

  // ---- Reopening ----

  predicate IsTemp(p: Path) {
    p.CurrentTmp? || p.SstTmp?
  }

  /** Some of the temporary files have been removed. */
  function Without(d: Disk, gone: set<Path>): Disk {
    map p | p in d && !(IsTemp(p) && p in gone) :: d[p]
  }

  function Cleaned(d: Disk): Disk {
    map p | p in d && !IsTemp(p) :: d[p]
  }

  function EditIds(ids: seq<nat>, item: Item): seq<nat> {
    match item
    case Edited(CreateTable(id)) => ids + [id]
    case Edited(DeleteTable(id)) => Removed(ids, id)
    case _ => ids
  }

  /** Live table ids in manifest order: the fold of the edits. */
  function LiveIds(ids: seq<nat>, items: seq<Item>): seq<nat>
    decreases |items|
  {
    if items == [] then ids else LiveIds(EditIds(ids, items[0]), items[1..])
  }

  function Removed(ids: seq<nat>, id: nat): seq<nat> {
    if ids == [] then [] else (if ids[0] == id then [] else [ids[0]]) + Removed(ids[1..], id)
  }

  /** None is the error of a missing or partial table file. */
  function LoadTable(d: Disk, id: nat): Option<Sst> {
    if SstFile(id) in d && |d[SstFile(id)].written| == 1 && d[SstFile(id)].written[0].Image?
    then Some(Sst(id, d[SstFile(id)].written[0].data)) else None
  }

  function LoadAll(d: Disk, ids: seq<nat>): Option<seq<Sst>> {
    if ids == [] then Some([]) else
      var t, rest := LoadTable(d, ids[0]), LoadAll(d, ids[1..]);
      if t.None? || rest.None? then None else Some(InsertNewest(t.value, rest.value))
  }

  /** Insertion keeping highest id first, and manifest order among equal ids. */
  function InsertNewest(t: Sst, tables: seq<Sst>): seq<Sst> {
    if tables == [] || t.id >= tables[0].id then [t] + tables else [tables[0]] + InsertNewest(t, tables[1..])
  }

  function LoadTables(d: Disk): Option<seq<Sst>> {
    if Current !in d || d[Current].written == [] then Some([])
    else if d[Current].written != [ManifestName] then None
    else if Manifest !in d then Some([])
    else LoadAll(d, LiveIds([], d[Manifest].written))
  }

  function ReadLog(items: seq<Item>): Option<seq<Record>> {
    if items == [] then Some([]) else
      var before := ReadLog(items[..|items| - 1]);
      match items[|items| - 1]
      case WalRecord(r) => if before.Some? then Some(before.value + [r]) else None
      case _ => None
  }

  function NextTable(tables: seq<Sst>): nat {
    if tables == [] then 1 else
      var rest := NextTable(tables[1..]);
      if tables[0].id + 1 >= rest then tables[0].id + 1 else rest
  }

  function LogBytes(wal: seq<Record>): nat {
    if wal == [] then 0 else LogBytes(wal[..|wal| - 1]) + EntrySize(wal[|wal| - 1].key, wal[|wal| - 1].val)
  }

  function Opened(limits: Limits, wal: seq<Record>, tables: seq<Sst>): Store {
    Store(limits, wal, Last(wal) + 1, Last(wal), LogTable(wal), LogBytes(wal), tables, NextTable(tables), 0)
  }

  /** Reopen a disk from which the temporary files are gone. */
  function Open(limits: Limits, d: Disk): Option<Store> {
    var wal, tables := ReadLog(FileAt(d, Wal).written), LoadTables(d);
    if wal.None? || tables.None? then None else Some(Opened(limits, wal.value, tables.value))
  }

  // ---- What the durable bytes stand for ----

  function LogItems(wal: seq<Record>): seq<Item> {
    if wal == [] then [] else LogItems(wal[..|wal| - 1]) + [WalRecord(wal[|wal| - 1])]
  }

  function EditItems(edits: seq<Edit>): seq<Item> {
    if edits == [] then [] else [Edited(edits[0])] + EditItems(edits[1..])
  }

  function EditSet(ids: set<nat>, e: Edit): set<nat> {
    match e
    case CreateTable(id) => ids + {id}
    case DeleteTable(id) => ids - {id}
    case SetLastSequence(_) => ids
  }

  function EditAll(ids: set<nat>, edits: seq<Edit>): set<nat>
    decreases |edits|
  {
    if edits == [] then ids else EditAll(EditSet(ids, edits[0]), edits[1..])
  }

  function ItemSet(ids: set<nat>, item: Item): set<nat> {
    if item.Edited? then EditSet(ids, item.edit) else ids
  }

  function LiveFrom(ids: set<nat>, items: seq<Item>): set<nat>
    decreases |items|
  {
    if items == [] then ids else LiveFrom(ItemSet(ids, items[0]), items[1..])
  }

  function LiveSet(items: seq<Item>): set<nat> {
    LiveFrom({}, items)
  }

  function IdsOf(tables: seq<Sst>): set<nat> {
    set t | t in tables :: t.id
  }

  datatype View = View(wal: seq<Record>, tables: seq<Sst>)

  predicate TableStored(d: Disk, t: Sst) {
    SstFile(t.id) in d && d[SstFile(t.id)].stable == [Image(t.data)]
  }

  /** The manifest the durable CURRENT names lists these tables, and each has a
      completely written and synced file. */
  ghost predicate Published(d: Disk, tables: seq<Sst>) {
    && Current in d && d[Current].stable == [ManifestName]
    && Manifest in d && LiveSet(d[Manifest].stable) == IdsOf(tables)
    && forall i :: 0 <= i < |tables| ==> TableStored(d, tables[i])
  }

  predicate TableComplete(d: Disk, id: nat) {
    SstFile(id) in d && |d[SstFile(id)].stable| == 1 && d[SstFile(id)].stable[0].Image?
  }

  /** Nothing is published yet; an interrupted first flush can only have logged table 1,
      whose file is complete. */
  ghost predicate Unpublished(d: Disk, tables: seq<Sst>) {
    && Current !in d && tables == []
    && LiveSet(FileAt(d, Manifest).stable) <= {1}
    && (1 in LiveSet(FileAt(d, Manifest).stable) ==> TableComplete(d, 1))
  }

  /** The durable part of the disk stands for this log and these tables. */
  ghost predicate Backs(d: Disk, v: View) {
    && FileAt(d, Wal).stable == LogItems(v.wal)
    && (Published(d, v.tables) || Unpublished(d, v.tables))
  }

  ghost predicate BacksOne(d: Disk, vs: set<View>) {
    exists v :: v in vs && Backs(d, v)
  }

  /** Every step of the script succeeds, and before and after each the durable bytes
      stand for one of the views. */
  ghost predicate Covered(d: Disk, ops: seq<DiskOp>, vs: set<View>)
    decreases |ops|
  {
    BacksOne(d, vs) && (ops != [] ==> Works(d, ops[0]) && Covered(Do(d, ops[0]), ops[1..], vs))
  }

  lemma {:induction false} DoConcat(d: Disk, a: seq<DiskOp>, b: seq<DiskOp>)
    ensures DoAll(d, a + b) == DoAll(DoAll(d, a), b)
    decreases |a|
  {
    if a == [] {
      assert a + b == b;
    } else {
      DoConcat(Do(d, a[0]), a[1..], b);
      assert (a + b)[1..] == a[1..] + b;
    }
  }

  lemma {:induction false} CoveredConcat(d: Disk, a: seq<DiskOp>, b: seq<DiskOp>, vs: set<View>)
    requires Covered(d, a, vs) && Covered(DoAll(d, a), b, vs)
    ensures Covered(d, a + b, vs)
    decreases |a|
  {
    if a == [] {
      assert a + b == b;
    } else {
      CoveredConcat(Do(d, a[0]), a[1..], b, vs);
      assert (a + b)[0] == a[0] && (a + b)[1..] == a[1..] + b;
    }
  }

  lemma {:induction false} CoveredMore(d: Disk, ops: seq<DiskOp>, vs: set<View>, more: set<View>)
    requires Covered(d, ops, vs) && vs <= more
    ensures Covered(d, ops, more)
    decreases |ops|
  {
    if ops != [] {
      CoveredMore(Do(d, ops[0]), ops[1..], vs, more);
    }
  }

  lemma {:induction false} CoveredAt(d: Disk, ops: seq<DiskOp>, vs: set<View>, n: nat)
    requires Covered(d, ops, vs) && n <= |ops|
    ensures BacksOne(DoAll(d, ops[..n]), vs)
    decreases n
  {
    if n > 0 {
      CoveredAt(Do(d, ops[0]), ops[1..], vs, n - 1);
      assert ops[..n][1..] == ops[1..][..n - 1];
    }
  }

  // ---- Publishing ----

  /** Temporary files and unlisted table files do not matter. */
  lemma BacksFrame(d: Disk, e: Disk, v: View)
    requires Backs(d, v)
    requires FileAt(d, Wal).stable == FileAt(e, Wal).stable && FileAt(d, Manifest).stable == FileAt(e, Manifest).stable
    requires FileAt(d, Current).stable == FileAt(e, Current).stable
    requires (Manifest in d ==> Manifest in e) && (Current in d <==> Current in e)
    requires forall i :: 0 <= i < |v.tables| ==> (TableStored(d, v.tables[i]) ==> TableStored(e, v.tables[i]))
    requires TableComplete(d, 1) ==> TableComplete(e, 1)
    ensures Backs(e, v)
  {
  }

  lemma TempFrame(d: Disk, v: View, p: Path, f: File)
    requires Backs(d, v) && IsTemp(p)
    ensures Backs(d[p := f], v)
  {
  }

  lemma OverwriteEmpty(x: Item)
    ensures Overwritten([], 0, [x]) == [x]
  {
    assert Resized([], 1) == [Zero];
  }

  lemma DoOne(d: Disk, op: DiskOp)
    ensures DoAll(d, [op]) == Do(d, op)
  {
  }

  lemma Four(d: Disk, a: DiskOp, b: DiskOp, c: DiskOp, e: DiskOp, vs: set<View>)
    requires BacksOne(d, vs) && Works(d, a)
    requires BacksOne(Do(d, a), vs) && Works(Do(d, a), b)
    requires BacksOne(Do(Do(d, a), b), vs) && Works(Do(Do(d, a), b), c)
    requires BacksOne(Do(Do(Do(d, a), b), c), vs) && e == FsyncDir
    ensures Covered(d, [a, b, c, e], vs) && DoAll(d, [a, b, c, e]) == Do(Do(Do(d, a), b), c)
  {
    var d1, d2, d3 := Do(d, a), Do(Do(d, a), b), Do(Do(Do(d, a), b), c);
    DoOne(d3, e);
    assert [e][1..] == [] && Covered(d3, [e], vs) && DoAll(d3, [e]) == d3;
    assert [c, e][1..] == [e] && Covered(d2, [c, e], vs) && DoAll(d2, [c, e]) == d3;
    assert [b, c, e][1..] == [c, e] && Covered(d1, [b, c, e], vs) && DoAll(d1, [b, c, e]) == d3;
    assert [a, b, c, e][1..] == [b, c, e];
  }

  lemma TablePublished(d: Disk, id: nat, data: Table, v: View, vs: set<View>)
    requires v in vs && Backs(d, v) && SstTmp(id) !in d && id !in IdsOf(v.tables)
    ensures Covered(d, PublishTable(id, data), vs)
    ensures DoAll(d, PublishTable(id, data)) == d[SstFile(id) := File([Image(data)], [Image(data)])]
    ensures Backs(d[SstFile(id) := File([Image(data)], [Image(data)])], v)
  {
    var tmp, img := SstTmp(id), [Image(data)];
    OverwriteEmpty(Image(data));
    var d1, d2 := d[tmp := File(img, [])], d[tmp := File(img, img)];
    var d3 := d[SstFile(id) := File(img, img)];
    TempFrame(d, v, tmp, File(img, []));
    TempFrame(d, v, tmp, File(img, img));
    BacksFrame(d, d3, v);
    assert Do(d, WriteAt(tmp, 0, img)) == d1;
    assert Do(d1, FsyncFile(tmp)) == d2;
    assert Do(d2, Rename(tmp, SstFile(id))) == d3;
    Four(d, WriteAt(tmp, 0, img), FsyncFile(tmp), Rename(tmp, SstFile(id)), FsyncDir, vs);
  }

  lemma CurrentPublished(d: Disk, v: View, after: View, vs: set<View>)
    requires v in vs && after in vs && Backs(d, v) && CurrentTmp !in d
    requires Backs(d[Current := File([ManifestName], [ManifestName])], after)
    ensures Covered(d, PublishCurrent(), vs)
    ensures DoAll(d, PublishCurrent()) == d[Current := File([ManifestName], [ManifestName])]
  {
    var tmp, name := CurrentTmp, [ManifestName];
    OverwriteEmpty(ManifestName);
    var d1, d2, d3 := d[tmp := File(name, [])], d[tmp := File(name, name)], d[Current := File(name, name)];
    TempFrame(d, v, tmp, File(name, []));
    TempFrame(d, v, tmp, File(name, name));
    assert Do(d, WriteAt(tmp, 0, name)) == d1;
    assert Do(d1, FsyncFile(tmp)) == d2;
    assert Do(d2, Rename(tmp, Current)) == d3;
    Four(d, WriteAt(tmp, 0, name), FsyncFile(tmp), Rename(tmp, Current), FsyncDir, vs);
  }

  function Noted(d: Disk, edits: seq<Edit>): File {
    File(FileAt(d, Manifest).written + EditItems(edits), FileAt(d, Manifest).stable)
  }

  lemma {:induction false} AppendsCovered(d: Disk, edits: seq<Edit>, v: View, vs: set<View>)
    requires v in vs && Backs(d, v) && (edits == [] ==> Manifest in d)
    ensures Covered(d, Appends(edits), vs)
    ensures DoAll(d, Appends(edits)) == d[Manifest := Noted(d, edits)]
    ensures Backs(d[Manifest := Noted(d, edits)], v)
    decreases |edits|
  {
    NotedFrame(d, edits, v);
    if edits == [] {
      assert FileAt(d, Manifest).written + [] == FileAt(d, Manifest).written;
      assert d[Manifest := Noted(d, edits)] == d;
    } else {
      var e, ops := d[Manifest := Noted(d, [edits[0]])], Appends(edits);
      NotedFrame(d, [edits[0]], v);
      AppendsCovered(e, edits[1..], v, vs);
      NotedMore(d, edits);
      assert ops[0] == AppendTo(Manifest, [Edited(edits[0])]) && ops[1..] == Appends(edits[1..]);
    }
  }

  /** Edits that are only written change nothing durable. */
  lemma NotedFrame(d: Disk, edits: seq<Edit>, v: View)
    requires Backs(d, v)
    ensures Backs(d[Manifest := Noted(d, edits)], v)
  {
    BacksFrame(d, d[Manifest := Noted(d, edits)], v);
  }

  lemma NotedMore(d: Disk, edits: seq<Edit>)
    requires edits != []
    ensures var e := d[Manifest := Noted(d, [edits[0]])];
            && Do(d, AppendTo(Manifest, [Edited(edits[0])])) == e
            && e[Manifest := Noted(e, edits[1..])] == d[Manifest := Noted(d, edits)]
  {
    assert EditItems([edits[0]]) == [Edited(edits[0])];
    assert FileAt(d, Manifest).written + EditItems(edits)
        == FileAt(d, Manifest).written + [Edited(edits[0])] + EditItems(edits[1..]);
  }

  lemma EditsPublished(d: Disk, edits: seq<Edit>, v: View, after: View, vs: set<View>)
    requires v in vs && after in vs && Backs(d, v) && edits != []
    requires var m := FileAt(d, Manifest).written + EditItems(edits); Backs(d[Manifest := File(m, m)], after)
    ensures Covered(d, PublishEdits(edits), vs)
    ensures var m := FileAt(d, Manifest).written + EditItems(edits);
            DoAll(d, PublishEdits(edits)) == d[Manifest := File(m, m)]
  {
    AppendsCovered(d, edits, v, vs);
    var m, e, sync := FileAt(d, Manifest).written + EditItems(edits), d[Manifest := Noted(d, edits)], [FsyncFile(Manifest)];
    assert sync[1..] == [] && Do(e, sync[0]) == d[Manifest := File(m, m)];
    assert Covered(e, sync, vs) && DoAll(e, sync) == d[Manifest := File(m, m)];
    DoConcat(d, Appends(edits), sync);
    CoveredConcat(d, Appends(edits), sync, vs);
  }

  // ---- Manifest contents ----

  lemma {:induction false} LiveConcat(ids: set<nat>, a: seq<Item>, b: seq<Item>)
    ensures LiveFrom(ids, a + b) == LiveFrom(LiveFrom(ids, a), b)
    decreases |a|
  {
    if a == [] {
      assert a + b == b;
    } else {
      LiveConcat(ItemSet(ids, a[0]), a[1..], b);
      assert (a + b)[1..] == a[1..] + b;
    }
  }

  lemma {:induction false} LiveEdits(ids: set<nat>, edits: seq<Edit>)
    ensures LiveFrom(ids, EditItems(edits)) == EditAll(ids, edits)
    decreases |edits|
  {
    if edits != [] {
      LiveEdits(EditSet(ids, edits[0]), edits[1..]);
      assert EditItems(edits)[1..] == EditItems(edits[1..]);
    }
  }

  lemma LiveAfter(items: seq<Item>, edits: seq<Edit>)
    ensures LiveSet(items + EditItems(edits)) == EditAll(LiveSet(items), edits)
  {
    LiveConcat({}, items, EditItems(edits));
    LiveEdits(LiveSet(items), edits);
  }

  lemma JoinThree(d: Disk, d1: Disk, d2: Disk, a: seq<DiskOp>, b: seq<DiskOp>, c: seq<DiskOp>, vs: set<View>)
    requires Covered(d, a, vs) && DoAll(d, a) == d1
    requires Covered(d1, b, vs) && DoAll(d1, b) == d2
    requires Covered(d2, c, vs)
    ensures Covered(d, a + b + c, vs) && DoAll(d, a + b + c) == DoAll(d2, c)
  {
    DoConcat(d, a, b);
    CoveredConcat(d, a, b, vs);
    DoConcat(d, a + b, c);
    CoveredConcat(d, a + b, c, vs);
  }

  lemma {:induction false} EditConcat(ids: set<nat>, a: seq<Edit>, b: seq<Edit>)
    ensures EditAll(ids, a + b) == EditAll(EditAll(ids, a), b)
    decreases |a|
  {
    if a == [] {
      assert a + b == b;
    } else {
      EditConcat(EditSet(ids, a[0]), a[1..], b);
      assert (a + b)[1..] == a[1..] + b;
    }
  }

  lemma OneEdit(ids: set<nat>, e: Edit)
    ensures EditAll(ids, [e]) == EditSet(ids, e)
  {
  }

  lemma {:induction false} DeletesRemove(ids: set<nat>, tables: seq<Sst>)
    ensures EditAll(ids, Deletes(tables)) == ids - IdsOf(tables)
    decreases |tables|
  {
    if tables != [] {
      DeletesRemove(ids, tables[1..]);
      EditConcat(ids, Deletes(tables[1..]), [DeleteTable(tables[0].id)]);
      OneEdit(EditAll(ids, Deletes(tables[1..])), DeleteTable(tables[0].id));
      IdsSplit(tables);
    }
  }

  lemma IdsSplit(tables: seq<Sst>)
    requires tables != []
    ensures IdsOf(tables) == {tables[0].id} + IdsOf(tables[1..])
  {
  }

  // ---- Each operation, step by step ----

  /** Between operations: everything written is durable, no temporary file is left. */
  ghost predicate Quiet(d: Disk, v: View) {
    Backs(d, v) && forall p :: p in d ==> d[p].written == d[p].stable && !IsTemp(p)
  }

  ghost predicate Idle(d: Disk, st: Store) {
    Quiet(d, View(st.wal, st.tables)) && (Current !in d ==> st.nextTable == 1)
  }

  lemma FlushEdits(ids: set<nat>, id: nat, last: nat)
    ensures EditAll(ids, [CreateTable(id), SetLastSequence(last)]) == ids + {id}
  {
    var edits := [CreateTable(id), SetLastSequence(last)];
    assert edits[1..] == [SetLastSequence(last)];
    OneEdit(ids + {id}, SetLastSequence(last));
  }

  function OnDisk(items: seq<Item>): File {
    File(items, items)
  }

  /** The disk with one more table file and the manifest rewritten. */
  function WithTable(d: Disk, t: Sst, m: seq<Item>): Disk {
    d[SstFile(t.id) := OnDisk([Image(t.data)])][Manifest := OnDisk(m)]
  }

  lemma TablesStored(d: Disk, tables: seq<Sst>, t: Sst, m: seq<Item>)
    requires t.id !in IdsOf(tables) && forall i :: 0 <= i < |tables| ==> TableStored(d, tables[i])
    ensures forall i :: 0 <= i < |[t] + tables| ==> TableStored(WithTable(d, t, m), ([t] + tables)[i])
  {
  }

  /** Logging a table whose file is complete moves the durable view, once CURRENT exists. */
  lemma CreateNoted(d: Disk, v: View, t: Sst, m: seq<Item>)
    requires Backs(d, v) && t.id !in IdsOf(v.tables) && LiveSet(m) == LiveSet(FileAt(d, Manifest).stable) + {t.id}
    requires Current !in d ==> t.id == 1
    ensures Backs(WithTable(d, t, m), if Current in d then View(v.wal, [t] + v.tables) else v)
    ensures Backs(WithTable(d, t, m)[Current := OnDisk([ManifestName])], View(v.wal, [t] + v.tables))
  {
    var tables := [t] + v.tables;
    IdsSplit(tables);
    assert tables[1..] == v.tables;
    TablesStored(d, v.tables, t, m);
    if Current in d {
      assert Published(WithTable(d, t, m), tables);
    } else {
      assert IdsOf(v.tables) == {};
    }
    assert Published(WithTable(d, t, m)[Current := OnDisk([ManifestName])], tables);
  }

  lemma FlushCovered(d: Disk, st: Store)
    requires Idle(d, st) && st.nextTable !in IdsOf(st.tables) && st.mem != map[]
    ensures var vs := {View(st.wal, st.tables), View(st.wal, Flush(st).tables)};
            Covered(d, FlushScript(st), vs) && Idle(DoAll(d, FlushScript(st)), Flush(st))
  {
    var t, edits := Sst(st.nextTable, st.mem), [CreateTable(st.nextTable), SetLastSequence(st.last)];
    FlushEdits(LiveSet(FileAt(d, Manifest).written), t.id, st.last);
    TablePutOnDisk(d, View(st.wal, st.tables), t, edits);
    assert Flush(st).tables == [t] + st.tables;
  }

  lemma FreshId(st: Store)
    requires LayersOk(st)
    ensures st.nextTable !in IdsOf(st.tables)
  {
  }

  /** A table file is written, logged by `edits` and CURRENT renewed. */
  lemma TablePutOnDisk(d: Disk, v: View, t: Sst, edits: seq<Edit>)
    requires Quiet(d, v) && t.id !in IdsOf(v.tables) && (Current !in d ==> t.id == 1) && edits != []
    requires var live := LiveSet(FileAt(d, Manifest).written); EditAll(live, edits) == live + {t.id}
    ensures var w := View(v.wal, [t] + v.tables);
            var ops := PublishTable(t.id, t.data) + PublishEdits(edits) + PublishCurrent();
            Covered(d, ops, {v, w}) && Quiet(DoAll(d, ops), w) && Current in DoAll(d, ops)
  {
    var m := FileAt(d, Manifest).written + EditItems(edits);
    LiveAfter(FileAt(d, Manifest).written, edits);
    CreateNoted(d, v, t, m);
    TableSteps(d, v, View(v.wal, [t] + v.tables), t, edits);
    StillQuiet(d, v, t, m, View(v.wal, [t] + v.tables));
  }

  lemma StillQuiet(d: Disk, v: View, t: Sst, m: seq<Item>, w: View)
    requires Quiet(d, v) && Backs(WithTable(d, t, m)[Current := OnDisk([ManifestName])], w)
    ensures Quiet(WithTable(d, t, m)[Current := OnDisk([ManifestName])], w)
  {
  }

  lemma TableSteps(d: Disk, v: View, w: View, t: Sst, edits: seq<Edit>)
    requires Backs(d, v) && SstTmp(t.id) !in d && CurrentTmp !in d && t.id !in IdsOf(v.tables) && edits != []
    requires var m := FileAt(d, Manifest).written + EditItems(edits);
             && Backs(WithTable(d, t, m), if Current in d then w else v)
             && Backs(WithTable(d, t, m)[Current := OnDisk([ManifestName])], w)
    ensures var ops := PublishTable(t.id, t.data) + PublishEdits(edits) + PublishCurrent();
            var m := FileAt(d, Manifest).written + EditItems(edits);
            Covered(d, ops, {v, w}) && DoAll(d, ops) == WithTable(d, t, m)[Current := OnDisk([ManifestName])]
  {
    var vs, m := {v, w}, FileAt(d, Manifest).written + EditItems(edits);
    TablePublished(d, t.id, t.data, v, vs);
    var d1, d2 := d[SstFile(t.id) := OnDisk([Image(t.data)])], WithTable(d, t, m);
    assert FileAt(d1, Manifest) == FileAt(d, Manifest);
    var mid := if Current in d then w else v;
    EditsPublished(d1, edits, v, mid, vs);
    CurrentPublished(d2, mid, w, vs);
    JoinThree(d, d1, d2, PublishTable(t.id, t.data), PublishEdits(edits), PublishCurrent(), vs);
  }

  function CompactEdits(st: Store): seq<Edit> {
    Deletes(st.tables) + [SetLastSequence(st.last)]
  }

  lemma CompactEditsRemove(ids: set<nat>, st: Store)
    ensures EditAll(ids, CompactEdits(st)) == ids - IdsOf(st.tables)
  {
    DeletesRemove(ids, st.tables);
    EditConcat(ids, Deletes(st.tables), [SetLastSequence(st.last)]);
    OneEdit(ids - IdsOf(st.tables), SetLastSequence(st.last));
  }

  /** The merged table replaces every table it was merged from. */
  lemma MergeSteps(d: Disk, st: Store, t: Sst)
    requires Idle(d, st) && st.tables != [] && t.id == st.nextTable && t.id !in IdsOf(st.tables)
    ensures var v, w := View(st.wal, st.tables), View(st.wal, [t]);
            var ops := PublishTable(t.id, t.data) + PublishEdits([CreateTable(t.id)] + CompactEdits(st)) + PublishCurrent();
            Covered(d, ops, {v, w}) && Quiet(DoAll(d, ops), w) && Current in DoAll(d, ops)
  {
    var v, w, edits := View(st.wal, st.tables), View(st.wal, [t]), [CreateTable(t.id)] + CompactEdits(st);
    var live, m := LiveSet(FileAt(d, Manifest).written), FileAt(d, Manifest).written + EditItems(edits);
    EditConcat(live, [CreateTable(t.id)], CompactEdits(st));
    OneEdit(live, CreateTable(t.id));
    CompactEditsRemove(live + {t.id}, st);
    LiveAfter(FileAt(d, Manifest).written, edits);
    MergeNoted(d, v, t, m);
    TableSteps(d, v, w, t, edits);
    StillQuiet(d, v, t, m, w);
  }

  lemma MergeNoted(d: Disk, v: View, t: Sst, m: seq<Item>)
    requires Backs(d, v) && Published(d, v.tables) && LiveSet(m) == {t.id}
    ensures Backs(WithTable(d, t, m), View(v.wal, [t]))
    ensures Backs(WithTable(d, t, m)[Current := OnDisk([ManifestName])], View(v.wal, [t]))
  {
  }

  /** Everything was collected: the tables are only taken out of the manifest. */
  lemma DropSteps(d: Disk, st: Store)
    requires Idle(d, st) && st.tables != []
    ensures var v, w := View(st.wal, st.tables), View(st.wal, []);
            var ops := PublishEdits(CompactEdits(st)) + PublishCurrent();
            Covered(d, ops, {v, w}) && Quiet(DoAll(d, ops), w) && Current in DoAll(d, ops)
  {
    var v, w, edits := View(st.wal, st.tables), View(st.wal, []), CompactEdits(st);
    var vs, m := {v, w}, FileAt(d, Manifest).written + EditItems(edits);
    CompactEditsRemove(LiveSet(FileAt(d, Manifest).written), st);
    LiveAfter(FileAt(d, Manifest).written, edits);
    var d1 := d[Manifest := OnDisk(m)];
    var d2 := d1[Current := OnDisk([ManifestName])];
    assert Published(d1, []) && Published(d2, []);
    EditsPublished(d, edits, v, w, vs);
    CurrentPublished(d1, w, w, vs);
    JoinTwo(d, d1, PublishEdits(edits), PublishCurrent(), vs);
  }

  lemma CompactCovered(d: Disk, st: Store)
    requires Idle(d, st) && st.nextTable !in IdsOf(st.tables) && |st.tables| >= 2
    ensures Covered(d, CompactScript(st), {View(st.wal, st.tables), View(st.wal, Compact(st).tables)})
    ensures Idle(DoAll(d, CompactScript(st)), Compact(st))
  {
    var out := Collect(Merge(DataOf(st.tables)), st.watermark);
    if out == map[] {
      DropSteps(d, st);
    } else {
      MergeSteps(d, st, Sst(st.nextTable, out));
      assert [CreateTable(st.nextTable)] + CompactEdits(st) == [CreateTable(st.nextTable)] + Deletes(st.tables) + [SetLastSequence(st.last)];
    }
  }

  // ---- The log ----

  lemma LogCovered(d: Disk, v: View, r: Record)
    requires Quiet(d, v)
    ensures var w := View(v.wal + [r], v.tables);
            && Covered(d, LogScript(r), {v, w}) && Quiet(DoAll(d, LogScript(r)), w)
            && (Current in d <==> Current in DoAll(d, LogScript(r)))
  {
    var w, items := View(v.wal + [r], v.tables), FileAt(d, Wal).written + [WalRecord(r)];
    var d1, d2 := d[Wal := File(items, FileAt(d, Wal).stable)], d[Wal := OnDisk(items)];
    var a, b := AppendTo(Wal, [WalRecord(r)]), FsyncFile(Wal);
    BacksFrame(d, d1, v);
    LogBacked(d, v, r);
    LogDone(d, r);
    Two(d, a, b, {v, w});
  }

  lemma LogDone(d: Disk, r: Record)
    ensures var items := FileAt(d, Wal).written + [WalRecord(r)];
            var d1 := Do(d, AppendTo(Wal, [WalRecord(r)]));
            d1 == d[Wal := File(items, FileAt(d, Wal).stable)] && Do(d1, FsyncFile(Wal)) == d[Wal := OnDisk(items)]
  {
  }

  lemma LogBacked(d: Disk, v: View, r: Record)
    requires Quiet(d, v)
    ensures Quiet(d[Wal := OnDisk(FileAt(d, Wal).written + [WalRecord(r)])], View(v.wal + [r], v.tables))
  {
    assert FileAt(d, Wal).written == FileAt(d, Wal).stable;
    LogItemsMore(v.wal, r);
    LogMoved(d, v, v.wal + [r], OnDisk(FileAt(d, Wal).written + [WalRecord(r)]));
  }

  lemma LogMoved(d: Disk, v: View, wal: seq<Record>, f: File)
    requires Backs(d, v) && f.stable == LogItems(wal)
    ensures Backs(d[Wal := f], View(wal, v.tables))
  {
    WalApart(d, f, v.tables);
  }

  lemma LogItemsMore(wal: seq<Record>, r: Record)
    ensures LogItems(wal + [r]) == LogItems(wal) + [WalRecord(r)]
  {
  }

  lemma WalApart(d: Disk, f: File, tables: seq<Sst>)
    ensures Published(d, tables) ==> Published(d[Wal := f], tables)
    ensures Unpublished(d, tables) ==> Unpublished(d[Wal := f], tables)
  {
  }

  lemma Two(d: Disk, a: DiskOp, b: DiskOp, vs: set<View>)
    requires BacksOne(d, vs) && Works(d, a) && BacksOne(Do(d, a), vs) && Works(Do(d, a), b) && BacksOne(Do(Do(d, a), b), vs)
    ensures Covered(d, [a, b], vs) && DoAll(d, [a, b]) == Do(Do(d, a), b)
  {
    DoOne(Do(d, a), b);
    assert [b][1..] == [] && [a, b][1..] == [b];
    assert Covered(Do(d, a), [b], vs);
  }

  /** The durable states a crash during the job may leave. */
  function Views(st: Store, job: Job): set<View> {
    var before := View(st.wal, st.tables);
    match job
    case Put(k, v) =>
      {before, View(Append(st, k, v).wal, st.tables), View(Append(st, k, v).wal, WriteRaw(st, k, v).tables)}
    case _ => {before, View(st.wal, Result(st, job).tables)}
  }

  /** Every table the durable manifest names has a complete, synced file, CURRENT or not. */
  lemma NamedTablesAreComplete(d: Disk, v: View, id: nat)
    requires Backs(d, v) && id in LiveSet(FileAt(d, Manifest).stable)
    ensures TableComplete(d, id)
  {
    if Published(d, v.tables) {
      var t :| t in v.tables && t.id == id;
      assert TableStored(d, t);
    }
  }

  /** At every crash point the durable bytes stand for the state before the job or the
      state it moves to, so recovery never meets a missing or partial table. */
  lemma JobCovered(d: Disk, st: Store, job: Job)
    requires Idle(d, st) && StoreOk(st)
    ensures Covered(d, Steps(st, job), Views(st, job)) && Idle(DoAll(d, Steps(st, job)), Result(st, job))
  {
    FreshId(st);
    match job
    case Put(k, v) => PutCovered(d, st, k, v);
    case FlushNow =>
      if st.mem != map[] { FlushCovered(d, st); }
    case CompactNow =>
      if |st.tables| >= 2 { CompactCovered(d, st); }
    case Advance(_) =>
    case Sync(_) =>
  }

  lemma PutCovered(d: Disk, st: Store, k: Bytes, v: Option<Bytes>)
    requires Idle(d, st) && st.nextTable !in IdsOf(st.tables)
    ensures Covered(d, Steps(st, Put(k, v)), Views(st, Put(k, v)))
    ensures Idle(DoAll(d, Steps(st, Put(k, v))), WriteRaw(st, k, v))
  {
    var r, a, before := Record(st.next, k, v), Append(st, k, v), View(st.wal, st.tables);
    LogCovered(d, before, r);
    var d1, vs := DoAll(d, LogScript(r)), Views(st, Put(k, v));
    CoveredMore(d, LogScript(r), {before, View(a.wal, a.tables)}, vs);
    if AutoFlush(a) == a {
      assert LogScript(r) + [] == LogScript(r);
    } else {
      FlushCovered(d1, a);
      CoveredMore(d1, FlushScript(a), {View(a.wal, a.tables), View(a.wal, Flush(a).tables)}, vs);
      JoinTwo(d, d1, LogScript(r), FlushScript(a), vs);
    }
  }

  lemma JoinTwo(d: Disk, d1: Disk, a: seq<DiskOp>, b: seq<DiskOp>, vs: set<View>)
    requires Covered(d, a, vs) && DoAll(d, a) == d1 && Covered(d1, b, vs)
    ensures Covered(d, a + b, vs) && DoAll(d, a + b) == DoAll(d1, b)
  {
    DoConcat(d, a, b);
    CoveredConcat(d, a, b, vs);
  }

  // ---- Reopening what is durable ----

  lemma {:induction false} ReadLogItems(wal: seq<Record>)
    ensures ReadLog(LogItems(wal)) == Some(wal)
    decreases |wal|
  {
    if wal != [] {
      var init := wal[..|wal| - 1];
      ReadLogItems(init);
      assert LogItems(wal)[..|LogItems(wal)| - 1] == LogItems(init);
      assert wal == init + [wal[|wal| - 1]];
    }
  }

  function SetOf(ids: seq<nat>): set<nat> {
    set id | id in ids
  }

  lemma {:induction false} RemovedIds(ids: seq<nat>, id: nat)
    ensures SetOf(Removed(ids, id)) == SetOf(ids) - {id}
    decreases |ids|
  {
    if ids != [] {
      RemovedIds(ids[1..], id);
      assert forall x :: x in SetOf(ids) <==> x == ids[0] || x in SetOf(ids[1..]);
      assert forall x :: x in SetOf(Removed(ids, id)) <==> (x == ids[0] && x != id) || x in SetOf(Removed(ids[1..], id));
    }
  }

  lemma {:induction false} LiveIdsAreLive(ids: seq<nat>, items: seq<Item>)
    ensures SetOf(LiveIds(ids, items)) == LiveFrom(SetOf(ids), items)
    decreases |items|
  {
    if items != [] {
      LiveIdsAreLive(EditIds(ids, items[0]), items[1..]);
      assert SetOf(EditIds(ids, items[0])) == ItemSet(SetOf(ids), items[0]) by {
        if items[0].Edited? && items[0].edit.DeleteTable? {
          RemovedIds(ids, items[0].edit.id);
        }
      }
    }
  }

  ghost predicate NewestFirst(tables: seq<Sst>) {
    forall i, j :: 0 <= i < j < |tables| ==> tables[i].id >= tables[j].id
  }

  lemma {:induction false} InsertedNewest(t: Sst, tables: seq<Sst>)
    requires NewestFirst(tables)
    ensures var r := InsertNewest(t, tables); NewestFirst(r) && forall x :: x in r <==> x == t || x in tables
    decreases |tables|
  {
    if tables != [] && t.id < tables[0].id {
      InsertedNewest(t, tables[1..]);
      var r := InsertNewest(t, tables);
      forall i, j | 0 <= i < j < |r| ensures r[i].id >= r[j].id {
        if i == 0 {
          assert r[j] == r[1..][j - 1] && r[1..][j - 1] in r[1..];
          assert forall x :: x in tables[1..] ==> x.id <= tables[0].id;
        }
      }
    }
  }

  ghost predicate Loadable(d: Disk, tables: seq<Sst>, id: nat) {
    exists t :: t in tables && t.id == id && TableStored(d, t) && d[SstFile(id)].written == d[SstFile(id)].stable
  }

  /** Every table the manifest names loads, and nothing else does. */
  lemma {:induction false} LoadAllOk(d: Disk, ids: seq<nat>, tables: seq<Sst>)
    requires forall id :: id in ids ==> Loadable(d, tables, id)
    ensures LoadAll(d, ids).Some?
    ensures var r := LoadAll(d, ids).value;
            && NewestFirst(r) && IdsOf(r) == SetOf(ids)
            && (forall t :: t in r ==> t in tables && TableStored(d, t))
    decreases |ids|
  {
    if ids != [] {
      LoadAllOk(d, ids[1..], tables);
      assert ids[0] in ids && Loadable(d, tables, ids[0]);
      var t :| t in tables && t.id == ids[0] && TableStored(d, t) && d[SstFile(t.id)].written == d[SstFile(t.id)].stable;
      assert LoadTable(d, ids[0]) == Some(t);
      var rest := LoadAll(d, ids[1..]).value;
      InsertedNewest(t, rest);
      IdsInserted(t, rest, InsertNewest(t, rest));
      assert forall id :: id in ids <==> id == ids[0] || id in ids[1..];
    }
  }

  lemma IdsInserted(t: Sst, rest: seq<Sst>, r: seq<Sst>)
    requires forall x :: x in r <==> x == t || x in rest
    ensures IdsOf(r) == {t.id} + IdsOf(rest)
  {
  }

  // ---- The reopened engine ----

  /** A log and tables an engine in good order could have left. */
  ghost predicate Sound(v: View) {
    && Increasing(v.wal) && (forall i :: 0 <= i < |v.wal| ==> 0 < v.wal[i].sequence)
    && TablesOk(v.tables) && (forall i :: 0 <= i < |v.tables| ==> Part(v.tables[i].data, LogTable(v.wal)))
  }

  /** Tables picked from good ones, newest first, are good; an id may repeat. */
  lemma PickedTablesOk(tables: seq<Sst>, r: seq<Sst>)
    requires TablesOk(tables) && NewestFirst(r) && forall t :: t in r ==> t in tables
    ensures TablesOk(r)
  {
    forall i, j | 0 <= i < j < |r|
      ensures r[i].id >= r[j].id && (r[i].id == r[j].id ==> r[i].data == r[j].data) && Above(r[i].data, r[j].data)
    {
      assert r[i] in tables && r[j] in tables;
      var a :| 0 <= a < |tables| && tables[a] == r[i];
      var b :| 0 <= b < |tables| && tables[b] == r[j];
      assert a == b || a < b || (tables[b].id >= tables[a].id && tables[a].id == tables[b].id);
    }
  }

  lemma {:induction false} NextTableAbove(tables: seq<Sst>, t: Sst)
    requires t in tables
    ensures t.id < NextTable(tables)
    decreases |tables|
  {
    if t != tables[0] {
      NextTableAbove(tables[1..], t);
    }
  }

  lemma OpenedIsComplete(limits: Limits, v: View)
    requires Sound(v)
    ensures Complete(Opened(limits, v.wal, v.tables))
  {
    var st, all := Opened(limits, v.wal, v.tables), LogTable(v.wal);
    forall i | 0 <= i < |st.tables| ensures st.tables[i].id < st.nextTable && Above(all, st.tables[i].data) {
      NextTableAbove(st.tables, st.tables[i]);
    }
    MergePart(DataOf(v.tables), all);
    assert HeldTable(st) == all;
  }

  /** What is durable reopens, from the same log, with nothing collected. */
  lemma ReopenOk(limits: Limits, d: Disk, v: View)
    requires Quiet(d, v) && Sound(v)
    ensures Open(limits, d).Some?
    ensures var st := Open(limits, d).value; st.wal == v.wal && Complete(st) && Idle(d, st)
  {
    ReadLogItems(v.wal);
    ReloadOk(d, v.tables);
    var r := LoadTables(d).value;
    PickedSound(v, r);
    OpenedIsComplete(limits, View(v.wal, r));
  }

  lemma PickedSound(v: View, r: seq<Sst>)
    requires Sound(v) && NewestFirst(r) && forall t :: t in r ==> t in v.tables
    ensures Sound(View(v.wal, r))
  {
    PickedTablesOk(v.tables, r);
    forall i | 0 <= i < |r| ensures Part(r[i].data, LogTable(v.wal)) {
      assert r[i] in v.tables;
    }
  }

  lemma ReloadOk(d: Disk, tables: seq<Sst>)
    requires Published(d, tables) || Unpublished(d, tables)
    requires forall p :: p in d ==> d[p].written == d[p].stable
    ensures LoadTables(d).Some?
    ensures var r := LoadTables(d).value;
            && NewestFirst(r) && (forall t :: t in r ==> t in tables)
            && (Published(d, r) || Unpublished(d, r)) && (Current !in d ==> r == [])
  {
    if Current in d {
      var ids := LiveIds([], d[Manifest].written);
      LiveIdsAreLive([], d[Manifest].written);
      assert SetOf([]) == {};
      forall id | id in ids ensures Loadable(d, tables, id) {
        assert id in SetOf(ids);
        var t :| t in tables && t.id == id;
        assert TableStored(d, t);
      }
      LoadAllOk(d, ids, tables);
      assert Published(d, LoadTables(d).value);
    }
  }

  // ---- Crashes ----

  lemma CrashKeeps(d: Disk, v: View)
    requires Backs(d, v)
    ensures Backs(Crashed(d), v) && Quiet(Cleaned(Crashed(d)), v)
  {
    BacksFrame(d, Crashed(d), v);
    BacksFrame(d, Cleaned(Crashed(d)), v);
  }

  lemma RemovalKeeps(d: Disk, gone: set<Path>, v: View)
    requires Backs(d, v)
    ensures Backs(Without(d, gone), v)
  {
  }

  /** Each failed attempt to open removed some temporary files and crashed. */
  function AfterAttempts(d: Disk, attempts: seq<set<Path>>): Disk
    decreases |attempts|
  {
    if attempts == [] then d else AfterAttempts(Crashed(Without(d, attempts[0])), attempts[1..])
  }

  lemma {:induction false} AttemptsKeep(d: Disk, attempts: seq<set<Path>>, v: View)
    requires Backs(d, v)
    ensures Backs(AfterAttempts(d, attempts), v)
    decreases |attempts|
  {
    if attempts != [] {
      RemovalKeeps(d, attempts[0], v);
      CrashKeeps(Without(d, attempts[0]), v);
      AttemptsKeep(Crashed(Without(d, attempts[0])), attempts[1..], v);
    }
  }

  /** The disk the next successful open reads: the job crashed after `n` disk steps,
      then every open attempt but the last crashed too. */
  function CrashedDisk(d: Disk, st: Store, job: Job, n: nat, attempts: seq<set<Path>>): Disk
    requires n <= |Steps(st, job)|
  {
    Cleaned(Crashed(AfterAttempts(Crashed(DoAll(d, Steps(st, job)[..n])), attempts)))
  }

  lemma StoreSound(st: Store)
    requires StoreOk(st)
    ensures Sound(View(st.wal, st.tables))
  {
  }

  lemma PutViewsSound(st: Store, k: Bytes, val: Option<Bytes>)
    requires StoreOk(st)
    ensures Sound(View(Append(st, k, val).wal, st.tables)) && Sound(View(Append(st, k, val).wal, WriteRaw(st, k, val).tables))
  {
    var a := Append(st, k, val);
    AppendKeeps(st, k, val);
    AppendedSound(a);
  }

  lemma AppendedSound(a: Store)
    requires StoreOk(a)
    ensures Sound(View(a.wal, a.tables)) && Sound(View(a.wal, AutoFlush(a).tables))
  {
    StoreSound(a);
    FlushedSound(a);
  }

  lemma FlushedSound(st: Store)
    requires StoreOk(st)
    ensures Sound(View(st.wal, Flush(st).tables))
  {
    FlushKeeps(st);
    StoreSound(Flush(st));
  }

  lemma CompactedSound(st: Store)
    requires StoreOk(st)
    ensures Sound(View(st.wal, Compact(st).tables))
  {
    CompactKeeps(st);
    StoreSound(Compact(st));
  }

  lemma ViewsSound(st: Store, job: Job, v: View)
    requires StoreOk(st) && v in Views(st, job)
    ensures Sound(v)
  {
    StoreSound(st);
    match job
    case Put(k, val) => PutViewsSound(st, k, val);
    case FlushNow => FlushedSound(st);
    case CompactNow => CompactedSound(st);
    case Advance(_) =>
    case Sync(_) =>
  }

  function LoggedBy(st: Store, job: Job): seq<Record> {
    if job.Put? then [Record(st.next, job.key, job.val)] else []
  }

  /** Whatever disk step a job crashes at, and however often opening crashes after it,
      the engine reopens; its log is the acknowledged one, or that plus the write in
      flight; every latest read is the fold of that log and every new sequence is
      above all stored ones. */
  lemma CrashIsRecovered(d: Disk, st: Store, job: Job, n: nat, attempts: seq<set<Path>>)
    requires Idle(d, st) && StoreOk(st) && n <= |Steps(st, job)|
    ensures Open(st.limits, CrashedDisk(d, st, job, n, attempts)).Some?
    ensures var e := CrashedDisk(d, st, job, n, attempts);
            var t := Open(st.limits, e).value;
            && (t.wal == st.wal || t.wal == st.wal + LoggedBy(st, job))
            && Complete(t) && Idle(e, t)
            && (forall k :: Read(t, k, Latest) == Lookup(Contents(t.wal), k))
            && (forall q :: q in HeldTable(t) ==> q.ts < t.next)
  {
    CrashReopens(d, st, job, n, attempts);
    OpenedReads(Open(st.limits, CrashedDisk(d, st, job, n, attempts)).value);
  }

  lemma CrashReopens(d: Disk, st: Store, job: Job, n: nat, attempts: seq<set<Path>>)
    requires Idle(d, st) && StoreOk(st) && n <= |Steps(st, job)|
    ensures var e := CrashedDisk(d, st, job, n, attempts);
            && Open(st.limits, e).Some?
            && var t := Open(st.limits, e).value;
               (t.wal == st.wal || t.wal == st.wal + LoggedBy(st, job)) && Complete(t) && Idle(e, t)
  {
    var v := SurvivingView(d, st, job, n, attempts);
    ReopenOk(st.limits, CrashedDisk(d, st, job, n, attempts), v);
  }

  lemma SurvivingView(d: Disk, st: Store, job: Job, n: nat, attempts: seq<set<Path>>) returns (v: View)
    requires Idle(d, st) && StoreOk(st) && n <= |Steps(st, job)|
    ensures Quiet(CrashedDisk(d, st, job, n, attempts), v) && Sound(v)
    ensures v.wal == st.wal || v.wal == st.wal + LoggedBy(st, job)
  {
    v := CrashPointView(d, st, job, n);
    CrashedBacks(d, st, job, n, attempts, v);
    ViewsSound(st, job, v);
  }

  lemma CrashedBacks(d: Disk, st: Store, job: Job, n: nat, attempts: seq<set<Path>>, v: View)
    requires n <= |Steps(st, job)| && Backs(DoAll(d, Steps(st, job)[..n]), v)
    ensures Quiet(CrashedDisk(d, st, job, n, attempts), v)
  {
    Survives(DoAll(d, Steps(st, job)[..n]), attempts, v);
  }

  /** What is durable survives the crash and any number of crashed openings. */
  lemma Survives(at: Disk, attempts: seq<set<Path>>, v: View)
    requires Backs(at, v)
    ensures Quiet(Cleaned(Crashed(AfterAttempts(Crashed(at), attempts))), v)
  {
    CrashKeeps(at, v);
    AttemptsKeep(Crashed(at), attempts, v);
    CrashKeeps(AfterAttempts(Crashed(at), attempts), v);
  }

  lemma CrashPointView(d: Disk, st: Store, job: Job, n: nat) returns (v: View)
    requires Idle(d, st) && StoreOk(st) && n <= |Steps(st, job)|
    ensures v in Views(st, job) && Backs(DoAll(d, Steps(st, job)[..n]), v)
  {
    JobCovered(d, st, job);
    CoveredAt(d, Steps(st, job), Views(st, job), n);
    v :| v in Views(st, job) && Backs(DoAll(d, Steps(st, job)[..n]), v);
  }

  /** At every crash point, CURRENT or not, no table the durable manifest names is
      missing or partial. */
  lemma CrashPointTablesComplete(d: Disk, st: Store, job: Job, n: nat, id: nat)
    requires Idle(d, st) && StoreOk(st) && n <= |Steps(st, job)|
    requires id in LiveSet(FileAt(DoAll(d, Steps(st, job)[..n]), Manifest).stable)
    ensures TableComplete(DoAll(d, Steps(st, job)[..n]), id)
  {
    var v := CrashPointView(d, st, job, n);
    NamedTablesAreComplete(DoAll(d, Steps(st, job)[..n]), v, id);
  }

  lemma OpenedReads(t: Store)
    requires Complete(t)
    ensures forall k :: Read(t, k, Latest) == Lookup(Contents(t.wal), k)
    ensures forall q :: q in HeldTable(t) ==> q.ts < t.next
  {
    forall k ensures Read(t, k, Latest) == Lookup(Contents(t.wal), k) {
      LatestReadRefinesLog(t, k);
    }
    NextIsFresh(t);
  }

  // ---- Whole runs ----

  datatype Event =
    | Done(job: Job)
    | Crash(job: Job, n: nat, attempts: seq<set<Path>>)

  /** An open engine on its disk, with the writes it has acknowledged. */
  datatype Running = Running(st: Store, disk: Disk, acked: set<Record>)

  /** None if the engine cannot be reopened. */
  function After(m: Running, e: Event): Option<Running> {
    match e
    case Done(job) =>
      Some(Running(Result(m.st, job), DoAll(m.disk, Steps(m.st, job)),
                   m.acked + if job.Put? then {Record(m.st.next, job.key, job.val)} else {}))
    case Crash(job, n, attempts) =>
      Reopen(m, CrashedDisk(m.disk, m.st, job, Cut(m.st, job, n), attempts))
  }

  function Cut(st: Store, job: Job, n: nat): (at: nat)
    ensures at <= |Steps(st, job)|
  {
    if n <= |Steps(st, job)| then n else |Steps(st, job)|
  }

  function Reopen(m: Running, disk: Disk): Option<Running> {
    var st := Open(m.st.limits, disk);
    if st.None? then None else Some(Running(st.value, disk, m.acked))
  }

  function Run(m: Running, events: seq<Event>): Option<Running>
    decreases |events|
  {
    if events == [] then Some(m) else
      var next := After(m, events[0]);
      if next.None? then None else Run(next.value, events[1..])
  }

  ghost predicate RunningOk(m: Running) {
    StoreOk(m.st) && Idle(m.disk, m.st) && forall r :: r in m.acked ==> r in m.st.wal
  }

  lemma AdvanceKeeps(st: Store, w: nat)
    requires StoreOk(st)
    ensures StoreOk(SetWatermark(st, w))
  {
  }

  lemma ResultKeeps(st: Store, job: Job)
    requires StoreOk(st)
    ensures StoreOk(Result(st, job))
  {
    match job
    case Put(k, v) => WriteRawKeeps(st, k, v);
    case FlushNow => FlushKeeps(st);
    case CompactNow => CompactKeeps(st);
    case Advance(w) => AdvanceKeeps(st, w);
    case Sync(min) => SyncKeeps(st, min);
  }

  lemma ResultLog(st: Store, job: Job)
    ensures Result(st, job).wal == st.wal + LoggedBy(st, job)
  {
  }

  lemma DoneKeeps(m: Running, job: Job)
    requires RunningOk(m)
    ensures RunningOk(After(m, Done(job)).value)
  {
    JobCovered(m.disk, m.st, job);
    ResultKeeps(m.st, job);
    ResultLog(m.st, job);
  }

  lemma CrashKept(m: Running, job: Job, n: nat, attempts: seq<set<Path>>)
    requires RunningOk(m)
    ensures After(m, Crash(job, n, attempts)).Some? && RunningOk(After(m, Crash(job, n, attempts)).value)
  {
    var at := Cut(m.st, job, n);
    CrashedReopens(m, job, at, attempts);
    ReopenKept(m, CrashedDisk(m.disk, m.st, job, at, attempts), LoggedBy(m.st, job));
  }

  /** The disk opens to a store that agrees with it and logs what `m` did, or more. */
  ghost predicate Reopens(m: Running, disk: Disk, extra: seq<Record>) {
    && Open(m.st.limits, disk).Some?
    && var t := Open(m.st.limits, disk).value;
       StoreOk(t) && Idle(disk, t) && (t.wal == m.st.wal || t.wal == m.st.wal + extra)
  }

  lemma CrashedReopens(m: Running, job: Job, n: nat, attempts: seq<set<Path>>)
    requires RunningOk(m) && n <= |Steps(m.st, job)|
    ensures Reopens(m, CrashedDisk(m.disk, m.st, job, n, attempts), LoggedBy(m.st, job))
  {
    CrashReopens(m.disk, m.st, job, n, attempts);
  }

  lemma ReopenKept(m: Running, disk: Disk, extra: seq<Record>)
    requires RunningOk(m) && Reopens(m, disk, extra)
    ensures Reopen(m, disk).Some? && RunningOk(Reopen(m, disk).value)
  {
  }

  lemma {:induction false} RunKeepsOk(m: Running, events: seq<Event>)
    requires RunningOk(m)
    ensures Run(m, events).Some? && RunningOk(Run(m, events).value)
    decreases |events|
  {
    if events != [] {
      match events[0] {
        case Done(job) => DoneKeeps(m, job);
        case Crash(job, n, attempts) => CrashKept(m, job, n, attempts);
      }
      RunKeepsOk(After(m, events[0]).value, events[1..]);
    }
  }

  lemma FreshEngineRuns(limits: Limits)
    ensures RunningOk(Running(Fresh(limits), map[], {}))
  {
  }

  /** Over any run of writes, flushes, compactions and crashes at any disk step, the
      engine always reopens, has every acknowledged write in its log, and its latest
      reads are the fold of that log. */
  lemma AcknowledgedWritesSurvive(limits: Limits, events: seq<Event>, r: Record, k: Bytes)
    ensures Run(Running(Fresh(limits), map[], {}), events).Some?
    ensures var m := Run(Running(Fresh(limits), map[], {}), events).value;
            && (r in m.acked ==> r in m.st.wal)
            && Read(m.st, k, Latest) == Lookup(Contents(m.st.wal), k)
  {
    FreshEngineRuns(limits);
    RunKeepsOk(Running(Fresh(limits), map[], {}), events);
    LatestReadRefinesLog(Run(Running(Fresh(limits), map[], {}), events).value.st, k);
  }
}
