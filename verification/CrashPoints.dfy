/** Which bytes are durable at each crash point, and what follows: when the live tables
    have distinct ids, and what a crash inside a commit leaves. */
module CrashPoints {
  import opened ByteStrings
  import opened Versions
  import opened WriteAheadLog
  import opened Storage
  import opened SimDisk
  import opened CrashRecovery

  // ---- Steps that leave a file alone ----

  predicate Elsewhere(op: DiskOp, p: Path) {
    match op
    case WriteAt(q, _, _) => q != p
    case AppendTo(q, _) => q != p
    case FsyncFile(q) => q != p
    case FsyncDir => true
    case Rename(from, to) => from != p && to != p
    case RemoveFile(q) => q != p
  }

  ghost predicate AllElsewhere(ops: seq<DiskOp>, p: Path) {
    forall op :: op in ops ==> Elsewhere(op, p)
  }

  lemma {:induction false} ElsewhereKeeps(d: Disk, ops: seq<DiskOp>, p: Path)
    requires AllElsewhere(ops, p)
    ensures FileAt(DoAll(d, ops), p) == FileAt(d, p)
    decreases |ops|
  {
    if ops != [] {
      assert ops[0] in ops && AllElsewhere(ops[1..], p);
      ElsewhereKeeps(Do(d, ops[0]), ops[1..], p);
    }
  }

  lemma {:induction false} NameAbsent(d: Disk, ops: seq<DiskOp>, p: Path)
    requires AllElsewhere(ops, p) && p !in d
    ensures p !in DoAll(d, ops)
    decreases |ops|
  {
    if ops != [] {
      assert ops[0] in ops && AllElsewhere(ops[1..], p);
      NameAbsent(Do(d, ops[0]), ops[1..], p);
    }
  }

  predicate KeepsName(op: DiskOp, p: Path) {
    (op.RemoveFile? ==> op.path != p) && (op.Rename? ==> op.from != p)
  }

  lemma {:induction false} NameStays(d: Disk, ops: seq<DiskOp>, p: Path)
    requires p in d && forall op :: op in ops ==> KeepsName(op, p)
    ensures p in DoAll(d, ops)
    decreases |ops|
  {
    if ops != [] {
      assert ops[0] in ops;
      NameStays(Do(d, ops[0]), ops[1..], p);
    }
  }

  // ---- The durable manifest at each crash point ----

  lemma {:induction false} AppendsLength(edits: seq<Edit>)
    ensures |Appends(edits)| == |edits|
    decreases |edits|
  {
    if edits != [] { AppendsLength(edits[1..]); }
  }

  lemma {:induction false} AppendsTaken(edits: seq<Edit>, n: nat)
    requires n <= |edits| && n <= |Appends(edits)|
    ensures Appends(edits)[..n] == Appends(edits[..n])
    decreases |edits|
  {
    if edits != [] && n > 0 {
      AppendsLength(edits[1..]);
      AppendsTaken(edits[1..], n - 1);
      assert edits[..n][1..] == edits[1..][..n - 1];
    }
  }

  lemma {:induction false} AppendsDone(d: Disk, edits: seq<Edit>)
    ensures FileAt(DoAll(d, Appends(edits)), Manifest)
         == File(FileAt(d, Manifest).written + EditItems(edits), FileAt(d, Manifest).stable)
    decreases |edits|
  {
    var ops, file := Appends(edits), FileAt(d, Manifest);
    if edits == [] {
      assert file.written + [] == file.written;
    } else {
      assert ops[0] == AppendTo(Manifest, [Edited(edits[0])]) && ops[1..] == Appends(edits[1..]);
      OneAppended(d, edits[0]);
      AppendsDone(Do(d, ops[0]), edits[1..]);
      ItemsJoin(file.written, edits);
    }
  }

  lemma OneAppended(d: Disk, e: Edit)
    ensures FileAt(Do(d, AppendTo(Manifest, [Edited(e)])), Manifest)
         == File(FileAt(d, Manifest).written + [Edited(e)], FileAt(d, Manifest).stable)
  {
  }

  lemma ItemsJoin(items: seq<Item>, edits: seq<Edit>)
    requires edits != []
    ensures items + [Edited(edits[0])] + EditItems(edits[1..]) == items + EditItems(edits)
  {
  }

  lemma EditsDone(d: Disk, edits: seq<Edit>)
    requires edits != []
    ensures FileAt(DoAll(d, PublishEdits(edits)), Manifest) == OnDisk(FileAt(d, Manifest).written + EditItems(edits))
  {
    AppendsDone(d, edits);
    DoConcat(d, Appends(edits), [FsyncFile(Manifest)]);
    DoOne(DoAll(d, Appends(edits)), FsyncFile(Manifest));
    AppendKeepsName(d, edits);
  }

  lemma {:induction false} AppendKeepsName(d: Disk, edits: seq<Edit>)
    requires edits != [] || Manifest in d
    ensures Manifest in DoAll(d, Appends(edits))
    decreases |edits|
  {
    if edits != [] {
      var ops := Appends(edits);
      assert ops[1..] == Appends(edits[1..]);
      AppendKeepsName(Do(d, ops[0]), edits[1..]);
    }
  }

  /** A script that publishes edits after `first` and before `rest`. */
  function Publication(first: seq<DiskOp>, edits: seq<Edit>, rest: seq<DiskOp>): seq<DiskOp> {
    first + PublishEdits(edits) + rest
  }

  /** The edits become durable together, at the manifest's sync. */
  lemma ManifestAt(d: Disk, first: seq<DiskOp>, edits: seq<Edit>, rest: seq<DiskOp>, n: nat)
    requires AllElsewhere(first, Manifest) && AllElsewhere(rest, Manifest) && edits != []
    requires n <= |Publication(first, edits, rest)|
    ensures FileAt(DoAll(d, Publication(first, edits, rest)[..n]), Manifest).stable
         == if n <= |first| + |edits| then FileAt(d, Manifest).stable else FileAt(d, Manifest).written + EditItems(edits)
  {
    AppendsLength(edits);
    var ops := Publication(first, edits, rest);
    if n <= |first| {
      assert ops[..n] == first[..n];
      ElsewhereKeeps(d, first[..n], Manifest);
    } else if n <= |first| + |edits| {
      SomeAppended(d, first, edits, rest, n - |first|);
    } else {
      AllPublished(d, first, edits, rest, n - |first| - |edits| - 1);
    }
  }

  lemma SomeAppended(d: Disk, first: seq<DiskOp>, edits: seq<Edit>, rest: seq<DiskOp>, n: nat)
    requires AllElsewhere(first, Manifest) && n <= |edits| == |Appends(edits)|
    ensures FileAt(DoAll(d, Publication(first, edits, rest)[..|first| + n]), Manifest).stable == FileAt(d, Manifest).stable
  {
    assert Publication(first, edits, rest)[..|first| + n] == first + Appends(edits)[..n];
    AppendsTaken(edits, n);
    DoConcat(d, first, Appends(edits[..n]));
    ElsewhereKeeps(d, first, Manifest);
    AppendsDone(DoAll(d, first), edits[..n]);
  }

  lemma AllPublished(d: Disk, first: seq<DiskOp>, edits: seq<Edit>, rest: seq<DiskOp>, n: nat)
    requires AllElsewhere(first, Manifest) && AllElsewhere(rest, Manifest) && edits != [] && n <= |rest| && |edits| == |Appends(edits)|
    ensures FileAt(DoAll(d, Publication(first, edits, rest)[..|first| + |edits| + 1 + n]), Manifest)
         == OnDisk(FileAt(d, Manifest).written + EditItems(edits))
  {
    var done := first + PublishEdits(edits);
    assert Publication(first, edits, rest)[..|first| + |edits| + 1 + n] == done + rest[..n];
    DoConcat(d, first, PublishEdits(edits));
    DoConcat(d, done, rest[..n]);
    ElsewhereKeeps(d, first, Manifest);
    EditsDone(DoAll(d, first), edits);
    ElsewhereKeeps(DoAll(d, done), rest[..n], Manifest);
  }

  /** The edits a job publishes; none if it publishes nothing. */
  function EditsOf(st: Store, job: Job): seq<Edit> {
    match job
    case Put(k, v) =>
      var a := Append(st, k, v);
      if AutoFlush(a) == a || a.mem == map[] then [] else FlushNotes(a)
    case FlushNow => if st.mem == map[] then [] else FlushNotes(st)
    case CompactNow =>
      if |st.tables| < 2 then []
      else (if Collected(st) == map[] then [] else [CreateTable(st.nextTable)]) + CompactEdits(st)
    case _ => []
  }

  function FlushNotes(st: Store): seq<Edit> {
    [CreateTable(st.nextTable), SetLastSequence(st.last)]
  }

  function Collected(st: Store): Table {
    Collect(Merge(DataOf(st.tables)), st.watermark)
  }

  /** What a job does on disk before it publishes. */
  function FirstOf(st: Store, job: Job): seq<DiskOp> {
    match job
    case Put(k, v) =>
      var a := Append(st, k, v);
      LogScript(Record(st.next, k, v)) + if EditsOf(st, job) == [] then [] else PublishTable(a.nextTable, a.mem)
    case FlushNow => if st.mem == map[] then [] else PublishTable(st.nextTable, st.mem)
    case CompactNow =>
      if |st.tables| < 2 || Collected(st) == map[] then [] else PublishTable(st.nextTable, Collected(st))
    case _ => []
  }

  lemma StepsSplit(st: Store, job: Job)
    ensures Steps(st, job) == if EditsOf(st, job) == [] then FirstOf(st, job)
                              else Publication(FirstOf(st, job), EditsOf(st, job), PublishCurrent())
    ensures AllElsewhere(FirstOf(st, job), Manifest)
  {
    match job
    case Put(k, v) => PutSplit(st, k, v);
    case CompactNow =>
      if |st.tables| >= 2 {
        CompactSplit(st);
      }
    case _ =>
  }

  lemma PutSplit(st: Store, k: Bytes, v: Option<Bytes>)
    ensures Steps(st, Put(k, v)) == if EditsOf(st, Put(k, v)) == [] then FirstOf(st, Put(k, v))
                                    else Publication(FirstOf(st, Put(k, v)), EditsOf(st, Put(k, v)), PublishCurrent())
    ensures AllElsewhere(FirstOf(st, Put(k, v)), Manifest)
  {
    var a := Append(st, k, v);
    assert Key(k, st.next) in a.mem;
    var log, table, edits := LogScript(Record(st.next, k, v)), PublishTable(a.nextTable, a.mem), PublishEdits(FlushNotes(a));
    Regroup(log, table, edits, PublishCurrent());
    assert log + [] == log;
  }

  lemma Regroup(a: seq<DiskOp>, b: seq<DiskOp>, c: seq<DiskOp>, d: seq<DiskOp>)
    ensures a + (b + c + d) == a + b + c + d
  {
  }

  lemma CompactSplit(st: Store)
    requires |st.tables| >= 2
    ensures EditsOf(st, CompactNow) != []
    ensures CompactScript(st) == Publication(FirstOf(st, CompactNow), EditsOf(st, CompactNow), PublishCurrent())
  {
    assert CompactEdits(st)[|CompactEdits(st)| - 1] == SetLastSequence(st.last);
    if Collected(st) == map[] {
      assert [] + CompactEdits(st) == CompactEdits(st);
      assert [] + PublishEdits(CompactEdits(st)) == PublishEdits(CompactEdits(st));
    } else {
      assert [CreateTable(st.nextTable)] + CompactEdits(st)
          == [CreateTable(st.nextTable)] + Deletes(st.tables) + [SetLastSequence(st.last)];
    }
  }

  /** At every crash point the durable manifest is the old one or has all of the job's
      edits behind it. */
  lemma ManifestAtCrash(d: Disk, st: Store, job: Job, n: nat)
    requires n <= |Steps(st, job)| && FileAt(d, Manifest).written == FileAt(d, Manifest).stable
    ensures var m := FileAt(d, Manifest).stable;
            var now := FileAt(DoAll(d, Steps(st, job)[..n]), Manifest).stable;
            now == m || (EditsOf(st, job) != [] && now == m + EditItems(EditsOf(st, job)))
    ensures n == |Steps(st, job)| && EditsOf(st, job) != [] ==>
            FileAt(DoAll(d, Steps(st, job)[..n]), Manifest).stable == FileAt(d, Manifest).stable + EditItems(EditsOf(st, job))
  {
    StepsSplit(st, job);
    var first, edits := FirstOf(st, job), EditsOf(st, job);
    if edits == [] {
      ElsewhereKeeps(d, first[..n], Manifest);
    } else {
      AppendsLength(edits);
      ManifestAt(d, first, edits, PublishCurrent(), n);
    }
  }

  // ---- How often a table is listed ----

  function Count(ids: seq<nat>, y: nat): nat {
    if ids == [] then 0 else (if ids[0] == y then 1 else 0) + Count(ids[1..], y)
  }

  ghost predicate Distinct(ids: seq<nat>) {
    forall y :: Count(ids, y) <= 1
  }

  function IdList(tables: seq<Sst>): seq<nat> {
    if tables == [] then [] else [tables[0].id] + IdList(tables[1..])
  }

  lemma {:induction false} CountMember(ids: seq<nat>, y: nat)
    ensures y in ids <==> Count(ids, y) > 0
    decreases |ids|
  {
    if ids != [] { CountMember(ids[1..], y); }
  }

  lemma {:induction false} CountMore(ids: seq<nat>, x: nat, y: nat)
    ensures Count(ids + [x], y) == Count(ids, y) + if x == y then 1 else 0
    decreases |ids|
  {
    if ids == [] {
      assert ids + [x] == [x];
    } else {
      CountMore(ids[1..], x, y);
      assert (ids + [x])[1..] == ids[1..] + [x];
    }
  }

  lemma {:induction false} CountRemoved(ids: seq<nat>, x: nat, y: nat)
    ensures Count(Removed(ids, x), y) == if x == y then 0 else Count(ids, y)
    decreases |ids|
  {
    if ids != [] {
      CountRemoved(ids[1..], x, y);
      var rest := Removed(ids[1..], x);
      assert Removed(ids, x) == if ids[0] == x then rest else [ids[0]] + rest;
    }
  }

  /** How the edits move the number of times `y` is listed. */
  function CountAfter(n: nat, edits: seq<Edit>, y: nat): nat
    decreases |edits|
  {
    if edits == [] then n else CountAfter(CountEdit(n, edits[0], y), edits[1..], y)
  }

  function CountEdit(n: nat, e: Edit, y: nat): nat {
    match e
    case CreateTable(id) => if id == y then n + 1 else n
    case DeleteTable(id) => if id == y then 0 else n
    case SetLastSequence(_) => n
  }

  lemma {:induction false} EditsCount(ids: seq<nat>, edits: seq<Edit>, y: nat)
    ensures Count(LiveIds(ids, EditItems(edits)), y) == CountAfter(Count(ids, y), edits, y)
    decreases |edits|
  {
    if edits != [] {
      var items := EditItems(edits);
      assert items[0] == Edited(edits[0]) && items[1..] == EditItems(edits[1..]);
      if edits[0].CreateTable? { CountMore(ids, edits[0].id, y); }
      if edits[0].DeleteTable? { CountRemoved(ids, edits[0].id, y); }
      EditsCount(EditIds(ids, items[0]), edits[1..], y);
    }
  }

  lemma {:induction false} LiveIdsConcat(ids: seq<nat>, a: seq<Item>, b: seq<Item>)
    ensures LiveIds(ids, a + b) == LiveIds(LiveIds(ids, a), b)
    decreases |a|
  {
    if a == [] {
      assert a + b == b;
    } else {
      LiveIdsConcat(EditIds(ids, a[0]), a[1..], b);
      assert (a + b)[1..] == a[1..] + b;
    }
  }

  /** How often the manifest lists table `y`. */
  function Listings(items: seq<Item>, y: nat): nat {
    Count(LiveIds([], items), y)
  }

  lemma ListingsAfter(items: seq<Item>, edits: seq<Edit>, y: nat)
    ensures Listings(items + EditItems(edits), y) == CountAfter(Listings(items, y), edits, y)
  {
    LiveIdsConcat([], items, EditItems(edits));
    EditsCount(LiveIds([], items), edits, y);
  }

  lemma LiveIsListed(items: seq<Item>, y: nat)
    ensures y in LiveSet(items) <==> Listings(items, y) > 0
  {
    LiveIdsAreLive([], items);
    assert SetOf([]) == {};
    CountMember(LiveIds([], items), y);
  }

  lemma FlushCount(n: nat, st: Store, y: nat)
    ensures CountAfter(n, FlushNotes(st), y) == n + if y == st.nextTable then 1 else 0
  {
    var a, b := [CreateTable(st.nextTable)], [SetLastSequence(st.last)];
    assert FlushNotes(st) == a + b && a[1..] == [] && b[1..] == [];
    CountConcat(n, a, b, y);
    assert CountAfter(CountAfter(n, a, y), b, y) == CountEdit(CountAfter(n, a, y), b[0], y);
  }

  lemma {:induction false} CountConcat(n: nat, a: seq<Edit>, b: seq<Edit>, y: nat)
    ensures CountAfter(n, a + b, y) == CountAfter(CountAfter(n, a, y), b, y)
    decreases |a|
  {
    if a == [] {
      assert a + b == b;
    } else {
      CountConcat(CountEdit(n, a[0], y), a[1..], b, y);
      assert (a + b)[1..] == a[1..] + b;
    }
  }

  lemma {:induction false} DeletesCount(n: nat, tables: seq<Sst>, y: nat)
    ensures CountAfter(n, Deletes(tables), y) == if y in IdsOf(tables) then 0 else n
    decreases |tables|
  {
    if tables != [] {
      var last := [DeleteTable(tables[0].id)];
      DeletesCount(n, tables[1..], y);
      CountConcat(n, Deletes(tables[1..]), last, y);
      assert last[1..] == [];
      IdsSplit(tables);
    }
  }

  lemma CompactCount(n: nat, st: Store, y: nat)
    ensures CountAfter(n, CompactEdits(st), y) == if y in IdsOf(st.tables) then 0 else n
  {
    var last := [SetLastSequence(st.last)];
    DeletesCount(n, st.tables, y);
    CountConcat(n, Deletes(st.tables), last, y);
    assert last[1..] == [];
  }

  lemma MergedCount(n: nat, st: Store, y: nat)
    requires |st.tables| >= 2 && st.nextTable !in IdsOf(st.tables) && (y !in IdsOf(st.tables) ==> n == 0)
    ensures CountAfter(n, EditsOf(st, CompactNow), y) <= 1
  {
    var edits := EditsOf(st, CompactNow);
    if Collected(st) == map[] {
      assert edits == CompactEdits(st);
      CompactCount(n, st, y);
    } else {
      var first := [CreateTable(st.nextTable)];
      assert first[1..] == [];
      CountConcat(n, first, CompactEdits(st), y);
      CompactCount(CountAfter(n, first, y), st, y);
    }
  }

  // ---- Loading lists a table as often as the manifest does ----

  lemma {:induction false} InsertedCount(t: Sst, tables: seq<Sst>, y: nat)
    ensures Count(IdList(InsertNewest(t, tables)), y) == Count(IdList(tables), y) + if t.id == y then 1 else 0
    decreases |tables|
  {
    if tables != [] && t.id < tables[0].id {
      InsertedCount(t, tables[1..], y);
      assert InsertNewest(t, tables)[1..] == InsertNewest(t, tables[1..]);
    } else {
      assert InsertNewest(t, tables)[1..] == tables;
    }
  }

  lemma {:induction false} LoadedCount(d: Disk, ids: seq<nat>, y: nat)
    requires LoadAll(d, ids).Some?
    ensures Count(IdList(LoadAll(d, ids).value), y) == Count(ids, y)
    decreases |ids|
  {
    if ids != [] {
      LoadedCount(d, ids[1..], y);
      InsertedCount(LoadTable(d, ids[0]).value, LoadAll(d, ids[1..]).value, y);
    }
  }

  /** Loading yields distinct ids exactly when the manifest lists no table twice. */
  lemma LoadedDistinct(d: Disk)
    requires Current in d && d[Current].written == [ManifestName] && Manifest in d && LoadTables(d).Some?
    ensures Distinct(IdList(LoadTables(d).value)) <==> Distinct(LiveIds([], d[Manifest].written))
  {
    var ids := LiveIds([], d[Manifest].written);
    forall y ensures Count(IdList(LoadTables(d).value), y) == Count(ids, y) {
      LoadedCount(d, ids, y);
    }
  }

  // ---- Live table ids ----

  /** The very first publication leaves distinct ids exactly when no interrupted one
      left its edits in the durable manifest. */
  lemma FirstPublishExact(d: Disk, st: Store)
    requires Idle(d, st) && Current !in d && st.mem != map[]
    ensures var e := DoAll(d, FlushScript(st));
            && LoadTables(e).Some? && FileAt(e, Manifest).stable == FileAt(d, Manifest).stable + EditItems(FlushNotes(st))
            && (Distinct(IdList(LoadTables(e).value)) <==> LiveIds([], FileAt(d, Manifest).stable) == [])
            && Count(IdList(LoadTables(e).value), 1) == Listings(FileAt(d, Manifest).stable, 1) + 1
  {
    var e, m := DoAll(d, FlushScript(st)), FileAt(d, Manifest).stable;
    FlushCovered(d, st);
    ReloadOk(e, Flush(st).tables);
    assert Steps(st, FlushNow)[..|Steps(st, FlushNow)|] == FlushScript(st);
    ManifestAtCrash(d, st, FlushNow, |Steps(st, FlushNow)|);
    assert Published(e, Flush(st).tables) by { PublishedAfterFlush(d, st); }
    forall y ensures Count(IdList(LoadTables(e).value), y) == Listings(m, y) + if y == 1 then 1 else 0 {
      ListingsAfter(m, FlushNotes(st), y);
      FlushCount(Listings(m, y), st, y);
      LoadedCount(e, LiveIds([], FileAt(e, Manifest).written), y);
    }
    OnlyOne(m);
    assert Distinct(IdList(LoadTables(e).value)) ==> Count(IdList(LoadTables(e).value), 1) <= 1;
  }

  lemma PublishedAfterFlush(d: Disk, st: Store)
    requires Idle(d, st) && st.nextTable !in IdsOf(st.tables) && st.mem != map[]
    ensures Published(DoAll(d, FlushScript(st)), Flush(st).tables) && Current in DoAll(d, FlushScript(st))
  {
    FlushCovered(d, st);
    assert Flush(st).tables != [];
  }

  /** Before CURRENT exists only table 1 can be listed. */
  lemma OnlyOne(m: seq<Item>)
    requires LiveSet(m) <= {1}
    ensures forall y :: y != 1 ==> Listings(m, y) == 0
    ensures LiveIds([], m) == [] <==> Listings(m, 1) == 0
  {
    forall y | y != 1 ensures Listings(m, y) == 0 { LiveIsListed(m, y); }
    var ids := LiveIds([], m);
    if ids != [] {
      CountMember(ids, ids[0]);
      assert Listings(m, ids[0]) > 0;
    }
  }

  /** CURRENT exists and neither the manifest nor the engine lists a table twice. */
  ghost predicate Unique(m: Running) {
    Current in m.disk && Distinct(LiveIds([], FileAt(m.disk, Manifest).stable)) && Distinct(IdList(m.st.tables))
  }

  lemma JobKeepsListings(d: Disk, st: Store, job: Job, n: nat, y: nat)
    requires Idle(d, st) && StoreOk(st) && Current in d && n <= |Steps(st, job)|
    requires Listings(FileAt(d, Manifest).stable, y) <= 1
    ensures Listings(FileAt(DoAll(d, Steps(st, job)[..n]), Manifest).stable, y) <= 1
  {
    var m := FileAt(d, Manifest).stable;
    ManifestAtCrash(d, st, job, n);
    ListingsAfter(m, EditsOf(st, job), y);
    LiveIsListed(m, y);
    FreshId(st);
    match job
    case Put(k, v) => FlushCount(Listings(m, y), Append(st, k, v), y);
    case FlushNow => FlushCount(Listings(m, y), st, y);
    case CompactNow =>
      if |st.tables| >= 2 { MergedCount(Listings(m, y), st, y); }
    case _ =>
  }

  lemma JobKeepsDistinct(d: Disk, st: Store, job: Job, n: nat)
    requires Idle(d, st) && StoreOk(st) && Current in d && n <= |Steps(st, job)|
    requires Distinct(LiveIds([], FileAt(d, Manifest).stable))
    ensures Distinct(LiveIds([], FileAt(DoAll(d, Steps(st, job)[..n]), Manifest).stable))
    ensures Current in DoAll(d, Steps(st, job)[..n])
  {
    CurrentStays(d, st, job, n);
    var ids := LiveIds([], FileAt(DoAll(d, Steps(st, job)[..n]), Manifest).stable);
    forall y ensures Count(ids, y) <= 1 {
      assert Count(LiveIds([], FileAt(d, Manifest).stable), y) <= 1;
      JobKeepsListings(d, st, job, n, y);
    }
  }

  lemma CurrentStays(d: Disk, st: Store, job: Job, n: nat)
    requires Current in d && n <= |Steps(st, job)|
    ensures Current in DoAll(d, Steps(st, job)[..n])
  {
    StepsKeepCurrent(st, job);
    NameStays(d, Steps(st, job)[..n], Current);
  }

  lemma StepsKeepCurrent(st: Store, job: Job)
    ensures forall op :: op in Steps(st, job) ==> KeepsName(op, Current)
  {
    StepsSplit(st, job);
    AppendsName(EditsOf(st, job));
    FirstKeepsCurrent(st, job);
    assert forall op :: op in PublishCurrent() ==> KeepsName(op, Current);
  }

  lemma FirstKeepsCurrent(st: Store, job: Job)
    ensures forall op :: op in FirstOf(st, job) ==> KeepsName(op, Current)
  {
  }

  lemma {:induction false} AppendsName(edits: seq<Edit>)
    ensures forall op :: op in Appends(edits) ==> KeepsName(op, Current) && Elsewhere(op, Current)
    decreases |edits|
  {
    if edits != [] { AppendsName(edits[1..]); }
  }

  lemma {:induction false} IdListMember(tables: seq<Sst>, y: nat)
    ensures Count(IdList(tables), y) > 0 <==> y in IdsOf(tables)
    decreases |tables|
  {
    if tables != [] {
      IdListMember(tables[1..], y);
      IdsSplit(tables);
    }
  }

  lemma ResultDistinct(st: Store, job: Job)
    requires StoreOk(st) && Distinct(IdList(st.tables))
    ensures Distinct(IdList(Result(st, job).tables))
  {
    FreshId(st);
    var r := Result(st, job).tables;
    IdListMember(st.tables, st.nextTable);
    if r != st.tables {
      if job.CompactNow? {
        assert r == [] || r[1..] == [];
      } else {
        assert r[1..] == st.tables && r[0].id == st.nextTable;
      }
    }
  }

  /** The disk an opening reads has the durable manifest of the crash point. */
  lemma {:induction false} AttemptsFrame(d: Disk, attempts: seq<set<Path>>, p: Path)
    requires !IsTemp(p)
    ensures FileAt(AfterAttempts(d, attempts), p).stable == FileAt(d, p).stable
    ensures p in AfterAttempts(d, attempts) <==> p in d
    decreases |attempts|
  {
    if attempts != [] {
      AttemptsFrame(Crashed(Without(d, attempts[0])), attempts[1..], p);
    }
  }

  lemma CrashedFrame(d: Disk, st: Store, job: Job, n: nat, attempts: seq<set<Path>>, p: Path)
    requires !IsTemp(p) && n <= |Steps(st, job)|
    ensures var at, e := DoAll(d, Steps(st, job)[..n]), CrashedDisk(d, st, job, n, attempts);
            FileAt(e, p).stable == FileAt(at, p).stable == FileAt(e, p).written && (p in e <==> p in at)
  {
    AttemptsFrame(Crashed(DoAll(d, Steps(st, job)[..n])), attempts, p);
  }

  lemma DoneKeepsUnique(m: Running, job: Job)
    requires RunningOk(m) && Unique(m)
    ensures Unique(After(m, Done(job)).value)
  {
    var n := |Steps(m.st, job)|;
    assert Steps(m.st, job)[..n] == Steps(m.st, job);
    JobKeepsDistinct(m.disk, m.st, job, n);
    ResultDistinct(m.st, job);
  }

  lemma CrashKeepsUnique(m: Running, job: Job, n: nat, attempts: seq<set<Path>>)
    requires RunningOk(m) && Unique(m)
    ensures After(m, Crash(job, n, attempts)).Some? && Unique(After(m, Crash(job, n, attempts)).value)
  {
    var at := Cut(m.st, job, n);
    CrashKept(m, job, n, attempts);
    CrashedDistinct(m, job, at, attempts);
    ReopenedDistinct(After(m, Crash(job, n, attempts)).value, m.st.limits, CrashedDisk(m.disk, m.st, job, at, attempts));
  }

  lemma CrashedDistinct(m: Running, job: Job, n: nat, attempts: seq<set<Path>>)
    requires RunningOk(m) && Unique(m) && n <= |Steps(m.st, job)|
    ensures var e := CrashedDisk(m.disk, m.st, job, n, attempts);
            Current in e && Distinct(LiveIds([], FileAt(e, Manifest).stable))
  {
    JobKeepsDistinct(m.disk, m.st, job, n);
    CrashedFrame(m.disk, m.st, job, n, attempts, Manifest);
    CrashedFrame(m.disk, m.st, job, n, attempts, Current);
  }

  lemma ReopenedDistinct(m: Running, limits: Limits, e: Disk)
    requires m.disk == e && Open(limits, e) == Some(m.st) && Idle(e, m.st) && Current in e
    requires Distinct(LiveIds([], FileAt(e, Manifest).stable))
    ensures Unique(m)
  {
    assert Published(e, m.st.tables);
    LoadedDistinct(e);
  }

  /** Once CURRENT exists and ids are distinct, they stay so in every run, whatever
      crashes. */
  lemma {:induction false} IdsStayDistinct(m: Running, events: seq<Event>)
    requires RunningOk(m) && Unique(m)
    ensures Run(m, events).Some? && Unique(Run(m, events).value)
    decreases |events|
  {
    if events != [] {
      match events[0] {
        case Done(job) => DoneKeeps(m, job); DoneKeepsUnique(m, job);
        case Crash(job, n, attempts) => CrashKept(m, job, n, attempts); CrashKeepsUnique(m, job, n, attempts);
      }
      IdsStayDistinct(After(m, events[0]).value, events[1..]);
    }
  }

  /** A compaction lists every table once again, however often it was listed before. */
  lemma CompactionRestoresDistinct(d: Disk, st: Store)
    requires Idle(d, st) && StoreOk(st) && |st.tables| >= 2
    ensures Distinct(LiveIds([], FileAt(DoAll(d, CompactScript(st)), Manifest).stable)) && Distinct(IdList(Compact(st).tables))
  {
    var m, n := FileAt(d, Manifest).stable, |CompactScript(st)|;
    FreshId(st);
    CompactSplit(st);
    assert CompactScript(st)[..n] == CompactScript(st);
    ManifestAtCrash(d, st, CompactNow, n);
    forall y ensures Count(LiveIds([], FileAt(DoAll(d, CompactScript(st)), Manifest).stable), y) <= 1 {
      ListingsAfter(m, EditsOf(st, CompactNow), y);
      LiveIsListed(m, y);
      MergedCount(Listings(m, y), st, y);
    }
    assert Compact(st).tables == [] || Compact(st).tables[1..] == [];
  }

  // ---- A table listed twice ----

  /** Manifest sync done, CURRENT not yet renamed. */
  const EDITS_SYNCED := 7

  lemma FirstFlushPrefix(d: Disk, st: Store)
    requires st.mem != map[] && Current !in d && FileAt(d, Manifest).written == FileAt(d, Manifest).stable
    ensures EDITS_SYNCED <= |FlushScript(st)|
    ensures var at := DoAll(d, FlushScript(st)[..EDITS_SYNCED]);
            Current !in at && FileAt(at, Manifest).stable == FileAt(d, Manifest).stable + EditItems(FlushNotes(st))
  {
    var first, edits := PublishTable(st.nextTable, st.mem), FlushNotes(st);
    AppendsLength(edits);
    assert FlushScript(st) == Publication(first, edits, PublishCurrent());
    ManifestAt(d, first, edits, PublishCurrent(), EDITS_SYNCED);
    AppendsName(edits);
    assert FlushScript(st)[..EDITS_SYNCED] == first + PublishEdits(edits);
    NameAbsent(d, FlushScript(st)[..EDITS_SYNCED], Current);
  }

  /** The first flush crashed behind the manifest's sync. */
  lemma InterruptedFirstFlush(m: Running)
    requires RunningOk(m) && Current !in m.disk && m.st.mem != map[]
    ensures var r := After(m, Crash(FlushNow, EDITS_SYNCED, []));
            && r.Some? && RunningOk(r.value) && Current !in r.value.disk && r.value.st.mem != map[]
            && Listings(FileAt(r.value.disk, Manifest).stable, 1) > 0
  {
    var was, n := FileAt(m.disk, Manifest).stable, EDITS_SYNCED;
    FirstFlushPrefix(m.disk, m.st);
    CrashKept(m, FlushNow, n, []);
    CrashedFrame(m.disk, m.st, FlushNow, n, [], Manifest);
    CrashedFrame(m.disk, m.st, FlushNow, n, [], Current);
    ListingsAfter(was, FlushNotes(m.st), 1);
    FlushCount(Listings(was, 1), m.st, 1);
    CrashReopens(m.disk, m.st, FlushNow, n, []);
    StillFilled(m.st, Open(m.st.limits, CrashedDisk(m.disk, m.st, FlushNow, n, [])).value);
  }

  lemma StillFilled(st: Store, t: Store)
    requires StoreOk(st) && st.mem != map[] && t.wal == st.wal && t.mem == LogTable(t.wal)
    ensures t.mem != map[]
  {
    var q :| q in st.mem;
    assert q in LogTable(st.wal);
  }

  /** Flushing after it and reopening lists table 1 at least twice. */
  lemma DuplicateAfter(m: Running)
    requires RunningOk(m) && Current !in m.disk && m.st.mem != map[] && Listings(FileAt(m.disk, Manifest).stable, 1) > 0
    ensures var r := Run(m, [Done(FlushNow), Crash(Sync(0), 0, [])]);
            r.Some? && Count(IdList(r.value.st.tables), 1) >= 2
  {
    FirstPublishExact(m.disk, m.st);
    DoneKeeps(m, FlushNow);
    var f := After(m, Done(FlushNow)).value;
    Reload(f);
    var events := [Done(FlushNow), Crash(Sync(0), 0, [])];
    RunFirst(m, events, f);
    RunFirst(f, events[1..], After(f, Crash(Sync(0), 0, [])).value);
    assert events[1..][1..] == [];
  }

  lemma Reload(m: Running)
    requires RunningOk(m)
    ensures var r := After(m, Crash(Sync(0), 0, [])); r.Some? && Some(r.value.st.tables) == LoadTables(m.disk)
  {
    CrashKept(m, Sync(0), 0, []);
    SameDisk(m);
  }

  /** Reopening a disk nothing is under way on changes nothing on it. */
  lemma SameDisk(m: Running)
    requires RunningOk(m)
    ensures CrashedDisk(m.disk, m.st, Sync(0), 0, []) == m.disk
  {
    assert Steps(m.st, Sync(0))[..0] == [];
    assert Crashed(m.disk) == m.disk && Cleaned(m.disk) == m.disk;
  }

  /** From a fresh engine: one put, a first flush that crashes between the manifest's
      sync and the CURRENT rename, a second flush, and a reopen. */
  lemma TableListedTwice(limits: Limits, k: Bytes, v: Bytes)
    requires limits.memtableMaxBytes == 0
    ensures var events := [Done(Put(k, Some(v))), Crash(FlushNow, EDITS_SYNCED, []), Done(FlushNow), Crash(Sync(0), 0, [])];
            var r := Run(Running(Fresh(limits), map[], {}), events);
            r.Some? && Count(IdList(r.value.st.tables), 1) >= 2
  {
    var m0, job := Running(Fresh(limits), map[], {}), Put(k, Some(v));
    FreshEngineRuns(limits);
    DoneKeeps(m0, job);
    var m1 := After(m0, Done(job)).value;
    FirstPut(limits, k, v);
    InterruptedFirstFlush(m1);
    var m2 := After(m1, Crash(FlushNow, EDITS_SYNCED, [])).value;
    DuplicateAfter(m2);
    var events := [Done(job), Crash(FlushNow, EDITS_SYNCED, []), Done(FlushNow), Crash(Sync(0), 0, [])];
    assert events[1..][1..] == [Done(FlushNow), Crash(Sync(0), 0, [])];
    assert Run(m0, events) == Run(m1, events[1..]) == Run(m2, events[1..][1..]);
  }

  lemma FirstPut(limits: Limits, k: Bytes, v: Bytes)
    requires limits.memtableMaxBytes == 0
    ensures var m := After(Running(Fresh(limits), map[], {}), Done(Put(k, Some(v)))).value;
            Current !in m.disk && m.st.mem != map[]
  {
    var st := Fresh(limits);
    assert Steps(st, Put(k, Some(v))) == LogScript(Record(1, k, Some(v))) + [] == LogScript(Record(1, k, Some(v)));
    NameAbsent(map[], LogScript(Record(1, k, Some(v))), Current);
    assert Key(k, 1) in Append(st, k, Some(v)).mem;
  }

  // ---- A crash inside a commit ----

  /** A transaction's mutations are written one after the other. */
  function CommitEvents(muts: seq<(Bytes, Option<Bytes>)>): seq<Event> {
    if muts == [] then [] else [Done(Put(muts[0].0, muts[0].1))] + CommitEvents(muts[1..])
  }

  lemma {:induction false} CommitRuns(m: Running, muts: seq<(Bytes, Option<Bytes>)>)
    requires RunningOk(m)
    ensures var r := Run(m, CommitEvents(muts));
            r.Some? && RunningOk(r.value) && r.value.st == WriteAll(m.st, muts)
    decreases |muts|
  {
    if muts != [] {
      var events := CommitEvents(muts);
      assert events[1..] == CommitEvents(muts[1..]);
      var next := PutRuns(m, muts[0].0, muts[0].1);
      CommitRuns(next, muts[1..]);
      RunFirst(m, events, next);
    }
  }

  lemma RunFirst(m: Running, events: seq<Event>, next: Running)
    requires events != [] && After(m, events[0]) == Some(next)
    ensures Run(m, events) == Run(next, events[1..])
  {
  }

  lemma PutRuns(m: Running, k: Bytes, v: Option<Bytes>) returns (next: Running)
    requires RunningOk(m)
    ensures After(m, Done(Put(k, v))) == Some(next) && RunningOk(next) && next.st == WriteRaw(m.st, k, v)
  {
    DoneKeeps(m, Put(k, v));
    next := After(m, Done(Put(k, v))).value;
  }

  /** A record is durable from the log's sync on, two steps into its write. */
  lemma LogAt(d: Disk, st: Store, k: Bytes, v: Option<Bytes>, n: nat)
    requires n <= |Steps(st, Put(k, v))| && FileAt(d, Wal).written == FileAt(d, Wal).stable
    ensures FileAt(DoAll(d, Steps(st, Put(k, v))[..n]), Wal).stable
         == if n < 2 then FileAt(d, Wal).stable else FileAt(d, Wal).stable + [WalRecord(Record(st.next, k, v))]
  {
    var r, ops := Record(st.next, k, v), Steps(st, Put(k, v));
    if n < 2 {
      assert ops[..n] == LogScript(r)[..n];
      assert n == 1 ==> LogScript(r)[..1] == [AppendTo(Wal, [WalRecord(r)])];
    } else {
      var rest := ops[2..];
      assert ops[..n] == LogScript(r) + rest[..n - 2];
      DoConcat(d, LogScript(r), rest[..n - 2]);
      LogSynced(d, r);
      RestElsewhere(st, k, v);
      ElsewhereKeeps(DoAll(d, LogScript(r)), rest[..n - 2], Wal);
    }
  }

  lemma LogSynced(d: Disk, r: Record)
    ensures FileAt(DoAll(d, LogScript(r)), Wal) == OnDisk(FileAt(d, Wal).written + [WalRecord(r)])
  {
    var ops := LogScript(r);
    assert ops[1..] == [FsyncFile(Wal)];
    DoOne(Do(d, ops[0]), FsyncFile(Wal));
  }

  lemma RestElsewhere(st: Store, k: Bytes, v: Option<Bytes>)
    ensures |Steps(st, Put(k, v))| >= 2 && AllElsewhere(Steps(st, Put(k, v))[2..], Wal)
  {
    var a := Append(st, k, v);
    var tail := if AutoFlush(a) == a then [] else FlushScript(a);
    assert Steps(st, Put(k, v))[2..] == tail;
    FlushElsewhere(a);
  }

  lemma FlushElsewhere(st: Store)
    ensures AllElsewhere(FlushScript(st), Wal)
  {
    AppendsOfLog(FlushNotes(st));
    var a, b := PublishTable(st.nextTable, st.mem), PublishCurrent();
    assert AllElsewhere(a, Wal) && AllElsewhere(b, Wal);
  }

  lemma {:induction false} AppendsOfLog(edits: seq<Edit>)
    ensures AllElsewhere(Appends(edits), Wal)
    decreases |edits|
  {
    if edits != [] { AppendsOfLog(edits[1..]); }
  }

  /** The log a reopened engine has is exactly what was durable. */
  lemma ReopenedLog(m: Running, k: Bytes, v: Option<Bytes>, n: nat, attempts: seq<set<Path>>)
    requires RunningOk(m) && n <= |Steps(m.st, Put(k, v))|
    ensures var t := Open(m.st.limits, CrashedDisk(m.disk, m.st, Put(k, v), n, attempts));
            t.Some? && t.value.wal == if n < 2 then m.st.wal else m.st.wal + [Record(m.st.next, k, v)]
  {
    var e, r := CrashedDisk(m.disk, m.st, Put(k, v), n, attempts), Record(m.st.next, k, v);
    CrashReopens(m.disk, m.st, Put(k, v), n, attempts);
    CrashedFrame(m.disk, m.st, Put(k, v), n, attempts, Wal);
    LogAt(m.disk, m.st, k, v, n);
    LogReadsBack(m.st.wal, r);
    OpenedLog(m.st.limits, e);
  }

  lemma LogReadsBack(wal: seq<Record>, r: Record)
    ensures ReadLog(LogItems(wal)) == Some(wal) && ReadLog(LogItems(wal) + [WalRecord(r)]) == Some(wal + [r])
  {
    LogItemsMore(wal, r);
    ReadLogItems(wal);
    ReadLogItems(wal + [r]);
  }

  lemma OpenedLog(limits: Limits, d: Disk)
    requires Open(limits, d).Some?
    ensures ReadLog(FileAt(d, Wal).written) == Some(Open(limits, d).value.wal)
  {
  }

  /** A crash in the `i`-th write of a commit leaves exactly the mutations before it,
      and that one if its record was synced. */
  lemma CommitCrashKeepsPrefix(m: Running, muts: seq<(Bytes, Option<Bytes>)>, i: nat, part: Running, n: nat, attempts: seq<set<Path>>)
    requires RunningOk(m) && i < |muts| && Run(m, CommitEvents(muts[..i])) == Some(part)
    ensures var r := After(part, Crash(Put(muts[i].0, muts[i].1), n, attempts));
            var kept := if Cut(part.st, Put(muts[i].0, muts[i].1), n) < 2 then i else i + 1;
            r.Some? && r.value.st.wal == WriteAll(m.st, muts[..kept]).wal
  {
    CommitRuns(m, muts[..i]);
    var job := Put(muts[i].0, muts[i].1);
    ReopenedLog(part, muts[i].0, muts[i].1, Cut(part.st, job, n), attempts);
    OneMoreWrite(m.st, muts, i);
  }

  lemma {:induction false} OneMoreWrite(st: Store, muts: seq<(Bytes, Option<Bytes>)>, i: nat)
    requires i < |muts|
    ensures var part := WriteAll(st, muts[..i]);
            WriteAll(st, muts[..i + 1]).wal == part.wal + [Record(part.next, muts[i].0, muts[i].1)]
    decreases i
  {
    if i == 0 {
      assert muts[..1][1..] == [] && muts[..0] == [];
    } else {
      OneMoreWrite(WriteRaw(st, muts[0].0, muts[0].1), muts[1..], i - 1);
      assert muts[..i][1..] == muts[1..][..i - 1] && muts[..i + 1][1..] == muts[1..][..i];
    }
  }

  lemma {:induction false} LogLength(st: Store, muts: seq<(Bytes, Option<Bytes>)>)
    ensures |WriteAll(st, muts).wal| == |st.wal| + |muts|
    decreases |muts|
  {
    if muts != [] { LogLength(WriteRaw(st, muts[0].0, muts[0].1), muts[1..]); }
  }

  /** A commit is all or nothing under such a crash exactly when it falls before the
      first record or after the last one is synced. */
  lemma CommitCrashAtomicity(m: Running, muts: seq<(Bytes, Option<Bytes>)>, i: nat, part: Running, n: nat, attempts: seq<set<Path>>)
    requires RunningOk(m) && i < |muts| && Run(m, CommitEvents(muts[..i])) == Some(part)
    ensures var job := Put(muts[i].0, muts[i].1);
            var r := After(part, Crash(job, n, attempts));
            var synced := Cut(part.st, job, n) >= 2;
            && r.Some?
            && (r.value.st.wal == m.st.wal || r.value.st.wal == WriteAll(m.st, muts).wal
                <==> (i == 0 && !synced) || (i == |muts| - 1 && synced))
  {
    CommitCrashKeepsPrefix(m, muts, i, part, n, attempts);
    PrefixIsWhole(m.st, muts, if Cut(part.st, Put(muts[i].0, muts[i].1), n) < 2 then i else i + 1);
  }

  lemma PrefixIsWhole(st: Store, muts: seq<(Bytes, Option<Bytes>)>, i: nat)
    requires i <= |muts|
    ensures WriteAll(st, muts[..i]).wal == st.wal <==> i == 0
    ensures WriteAll(st, muts[..i]).wal == WriteAll(st, muts).wal <==> i == |muts|
  {
    LogLength(st, muts);
    LogLength(st, muts[..i]);
    assert i == 0 ==> muts[..i] == [];
    assert i == |muts| ==> muts[..i] == muts;
  }

  /** Every crash inside the commit leaves none of its mutations or all of them. */
  ghost predicate AtomicAtEveryCrash(m: Running, muts: seq<(Bytes, Option<Bytes>)>) {
    forall i: nat, part: Running, n: nat, attempts: seq<set<Path>> ::
      i < |muts| && Run(m, CommitEvents(muts[..i])) == Some(part) ==>
        var r := After(part, Crash(Put(muts[i].0, muts[i].1), n, attempts));
        r.Some? && (r.value.st.wal == m.st.wal || r.value.st.wal == WriteAll(m.st, muts).wal)
  }

  /** Exactly the commits of at most one mutation are atomic. */
  lemma CommitAtomicExact(m: Running, muts: seq<(Bytes, Option<Bytes>)>)
    requires RunningOk(m)
    ensures AtomicAtEveryCrash(m, muts) <==> |muts| <= 1
  {
    forall i: nat, part: Running, n: nat, attempts: seq<set<Path>>
      | |muts| <= 1 && i < |muts| && Run(m, CommitEvents(muts[..i])) == Some(part)
      ensures var r := After(part, Crash(Put(muts[i].0, muts[i].1), n, attempts));
              r.Some? && (r.value.st.wal == m.st.wal || r.value.st.wal == WriteAll(m.st, muts).wal)
    {
      CommitCrashAtomicity(m, muts, i, part, n, attempts);
    }
    if |muts| >= 2 {
      TornAtFirst(m, muts);
    }
  }

  lemma TornAtFirst(m: Running, muts: seq<(Bytes, Option<Bytes>)>)
    requires RunningOk(m) && |muts| >= 2
    ensures !AtomicAtEveryCrash(m, muts)
  {
    var none: seq<set<Path>> := [];
    assert muts[..0] == [] && Run(m, CommitEvents(muts[..0])) == Some(m);
    RestElsewhere(m.st, muts[0].0, muts[0].1);
    CommitCrashAtomicity(m, muts, 0, m, 2, none);
    assert Cut(m.st, Put(muts[0].0, muts[0].1), 2) == 2;
  }

  /** From a fresh engine: a commit of two keys crashes once the first record is synced,
      and the reopened engine reads one of the two. */
  lemma TornCommit(limits: Limits, k: Bytes, v: Bytes, l: Bytes, attempts: seq<set<Path>>)
    requires k != l
    ensures var r := After(Running(Fresh(limits), map[], {}), Crash(Put(k, Some(v)), 2, attempts));
            r.Some? && Read(r.value.st, k, Latest) == Some(v) && Read(r.value.st, l, Latest) == None
  {
    var m, job := Running(Fresh(limits), map[], {}), Put(k, Some(v));
    FreshEngineRuns(limits);
    CrashKept(m, job, 2, attempts);
    FirstRecordSynced(m, k, Some(v), attempts);
    var st := After(m, Crash(job, 2, attempts)).value.st;
    OneRecordReads(st, k, v, l);
  }

  lemma FirstRecordSynced(m: Running, k: Bytes, v: Option<Bytes>, attempts: seq<set<Path>>)
    requires RunningOk(m)
    ensures var r := After(m, Crash(Put(k, v), 2, attempts));
            r.Some? && r.value.st.wal == m.st.wal + [Record(m.st.next, k, v)]
  {
    RestElsewhere(m.st, k, v);
    ReopenedLog(m, k, v, 2, attempts);
  }

  lemma OneRecordReads(st: Store, k: Bytes, v: Bytes, l: Bytes)
    requires StoreOk(st) && k != l && st.wal == [Record(1, k, Some(v))]
    ensures Read(st, k, Latest) == Some(v) && Read(st, l, Latest) == None
  {
    LatestReadRefinesLog(st, k);
    LatestReadRefinesLog(st, l);
  }
}
