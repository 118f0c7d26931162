/** Secondary indexes: maintenance on writes, online backfill and verification, against
    the set of entries the primary rows call for. */
module Indexes {
  import opened ByteStrings
  import opened SystemKeys
  import opened IndexKeys
  import opened IndexExposure
  import TP = TwoPhase
  import TK = TxnKeys

  /** Secondary key and primary key. */
  type Entry = (Bytes, Bytes)

  datatype Def = Def(prefix: Bytes, extractor: Extractor)

  datatype Status = Idle | Running | Paused | Complete

  datatype Progress = Progress(status: Status, lastKey: Option<Bytes>)

  /** `rows` are all latest rows outside the index key space. */
  datatype Db = Db(rows: map<Bytes, Bytes>, defs: map<Bytes, Def>, entries: map<Bytes, set<Entry>>, progress: map<Bytes, Progress>)

  function RowAt(rows: map<Bytes, Bytes>, k: Bytes): Option<Bytes> {
    if k in rows then Some(rows[k]) else None
  }

  /** The entry a row calls for, if any. */
  function EntryOf(def: Def, k: Bytes, v: Option<Bytes>): set<Entry> {
    if v.Some? && Extract(def.extractor, v.value).Some? then {(Extract(def.extractor, v.value).value, k)} else {}
  }

  function Expected(def: Def, rows: map<Bytes, Bytes>): set<Entry> {
    set k | k in rows && HasPrefix(k, def.prefix) && Extract(def.extractor, rows[k]).Some?
      :: (Extract(def.extractor, rows[k]).value, k)
  }

  // ---- Maintenance ----

  function MaintainPut(def: Def, entries: set<Entry>, k: Bytes, was: Option<Bytes>, now: Bytes): set<Entry> {
    var oldSec := if was.Some? then Extract(def.extractor, was.value) else None;
    var newSec := Extract(def.extractor, now);
    if oldSec.Some? && newSec == oldSec then entries + {(oldSec.value, k)}
    else
      var cleared := if oldSec.Some? then entries - {(oldSec.value, k)} else entries;
      if newSec.Some? then cleared + {(newSec.value, k)} else cleared
  }

  function MaintainDelete(def: Def, entries: set<Entry>, k: Bytes, was: Option<Bytes>): set<Entry> {
    entries - EntryOf(def, k, was)
  }

  /** Only indexes whose prefix the key has are maintained. */
  function AfterPut(def: Def, entries: set<Entry>, k: Bytes, was: Option<Bytes>, v: Bytes): set<Entry> {
    if HasPrefix(k, def.prefix) then MaintainPut(def, entries, k, was, v) else entries
  }

  function AfterDelete(def: Def, entries: set<Entry>, k: Bytes, was: Option<Bytes>): set<Entry> {
    if HasPrefix(k, def.prefix) then MaintainDelete(def, entries, k, was) else entries
  }

  function PutEntries(db: Db, k: Bytes, was: Option<Bytes>, v: Bytes): map<Bytes, set<Entry>> {
    map n | n in db.entries :: if n in db.defs then AfterPut(db.defs[n], db.entries[n], k, was, v) else db.entries[n]
  }

  function DeleteEntries(db: Db, k: Bytes, was: Option<Bytes>): map<Bytes, set<Entry>> {
    map n | n in db.entries :: if n in db.defs then AfterDelete(db.defs[n], db.entries[n], k, was) else db.entries[n]
  }

  // ---- Backfill ----

  predicate Ahead(def: Def, last: Option<Bytes>, k: Bytes) {
    HasPrefix(k, def.prefix) && (last.Some? ==> Less(last.value, k))
  }

  /** Primary keys the backfill has still to visit, in key order. */
  function Todo(def: Def, rows: map<Bytes, Bytes>, last: Option<Bytes>): (keys: seq<Bytes>)
    ensures StrictlySorted(keys) && forall k :: k in keys <==> k in rows && Ahead(def, last, k)
  {
    Sorted(set k | k in rows && Ahead(def, last, k))
  }

  function EntriesFor(def: Def, rows: map<Bytes, Bytes>, keys: seq<Bytes>): set<Entry> {
    if keys == [] then {} else EntryOf(def, keys[0], RowAt(rows, keys[0])) + EntriesFor(def, rows, keys[1..])
  }

  function Batch(keys: seq<Bytes>, n: nat): seq<Bytes> {
    if |keys| <= n then keys else keys[..n]
  }

  function StepEntries(def: Def, rows: map<Bytes, Bytes>, entries: set<Entry>, p: Progress, n: nat): set<Entry> {
    entries + EntriesFor(def, rows, Batch(Todo(def, rows, p.lastKey), n))
  }

  /** Complete once fewer keys than the batch were left. */
  function StepProgress(def: Def, rows: map<Bytes, Bytes>, p: Progress, n: nat): Progress {
    var todo := Todo(def, rows, p.lastKey);
    var taken := Batch(todo, n);
    Progress(if |todo| < n then Complete else Running, if taken == [] then p.lastKey else Some(taken[|taken| - 1]))
  }

  // ---- The operations ----

  datatype Op =
    | Put(key: Bytes, val: Bytes)
    | Delete(key: Bytes)
    | Txn(write: TP.Write)
    | Create(name: Bytes, prefix: Bytes, extractor: Extractor, online: bool)
    | Drop(name: Bytes)
    | Step(name: Bytes, n: nat)
    | Pause(name: Bytes)
    | Resume(name: Bytes)

  predicate UserKey(k: Bytes) {
    KeyLenOk(k) && !IsSystemKey(k)
  }

  /** ASCII letters, digits, underscore and hyphen. */
  predicate NameByte(b: Byte) {
    48 <= b <= 57 || 65 <= b <= 90 || 97 <= b <= 122 || b == 95 || b == 45
  }

  predicate ValidName(name: Bytes) {
    0 < |name| <= 64 && forall i :: 0 <= i < |name| ==> NameByte(name[i])
  }

  function Created(db: Db, name: Bytes, def: Def, online: bool): Db {
    db.(defs := db.defs[name := def],
        entries := db.entries[name := if online then {} else EntriesFor(def, db.rows, Todo(def, db.rows, None))],
        progress := db.progress[name := Progress(if online then Running else Complete, None)])
  }

  /** Refused operations leave the store as it is. */
  function Next(db: Db, op: Op): Db {
    match op
    case Put(k, v) => if UserKey(k) then db.(rows := db.rows[k := v], entries := PutEntries(db, k, RowAt(db.rows, k), v)) else db
    case Delete(k) => if UserKey(k) then db.(rows := db.rows - {k}, entries := DeleteEntries(db, k, RowAt(db.rows, k))) else db
    case Txn(w) => if Writable(w) then db.(rows := TP.SetUser(db.rows, TK.Encode(w).0, TK.Encode(w).1)) else db
    case Create(name, prefix, extractor, online) =>
      if name in db.defs || !ValidName(name) || !KeyLenOk(prefix) then db else Created(db, name, Def(prefix, extractor), online)
    case Drop(name) =>
      if name !in db.defs then db
      else db.(defs := db.defs - {name}, entries := db.entries - {name}, progress := db.progress - {name})
    case Step(name, n) =>
      if n == 0 || name !in db.defs || name !in db.entries || name !in db.progress
         || db.progress[name].status == Paused || db.progress[name].status == Complete then db
      else
        var def, p := db.defs[name], db.progress[name];
        db.(entries := db.entries[name := StepEntries(def, db.rows, db.entries[name], p, n)],
            progress := db.progress[name := StepProgress(def, db.rows, p, n)])
    case Pause(name) =>
      if name in db.progress && db.progress[name].status == Running
      then db.(progress := db.progress[name := db.progress[name].(status := Paused)]) else db
    case Resume(name) =>
      if name in db.progress && (db.progress[name].status == Paused || db.progress[name].status == Idle)
      then db.(progress := db.progress[name := db.progress[name].(status := Running)]) else db
  }

  function Run(db: Db, ops: seq<Op>): Db
    decreases |ops|
  {
    if ops == [] then db else Run(Next(db, ops[0]), ops[1..])
  }

  // ---- The invariant ----

  /** No row two-phase commit writes under the prefix has a secondary. */
  predicate Sheltered(def: Def) {
    !Exposed(def.prefix, def.extractor)
  }

  /** Rows in the transaction key space are records, decisions and intents. */
  ghost predicate TxnRow(k: Bytes, v: Bytes) {
    exists w :: Writable(w) && TK.Encode(w) == (k, Some(v))
  }

  ghost predicate TxnRowsOk(rows: map<Bytes, Bytes>) {
    forall k :: k in rows && IsTxnSystemKey(k) ==> TxnRow(k, rows[k])
  }

  ghost predicate Covered(def: Def, entries: set<Entry>, rows: map<Bytes, Bytes>, last: Option<Bytes>) {
    last.Some? ==> forall e :: e in Expected(def, rows) && LessEq(e.1, last.value) ==> e in entries
  }

  /** Never an extra entry; everything up to the cursor is there; exact when complete. */
  ghost predicate IndexOk(def: Def, entries: set<Entry>, rows: map<Bytes, Bytes>, p: Progress) {
    entries <= Expected(def, rows) && Covered(def, entries, rows, p.lastKey) && (p.status == Complete ==> entries == Expected(def, rows))
  }

  ghost predicate DbOk(db: Db) {
    && db.entries.Keys == db.defs.Keys && db.progress.Keys == db.defs.Keys && TxnRowsOk(db.rows)
    && forall n :: n in db.defs && Sheltered(db.defs[n]) ==> IndexOk(db.defs[n], db.entries[n], db.rows, db.progress[n])
  }

  lemma ExpectedMember(def: Def, rows: map<Bytes, Bytes>, e: Entry)
    ensures e in Expected(def, rows) <==>
            HasPrefix(e.1, def.prefix) && e in EntryOf(def, e.1, RowAt(rows, e.1))
  {
  }

  /** A write changes the expected set only by its own row's entry. */
  lemma ExpectedAfterPut(def: Def, rows: map<Bytes, Bytes>, k: Bytes, v: Bytes)
    ensures Expected(def, rows[k := v]) ==
            if HasPrefix(k, def.prefix) then Expected(def, rows) - EntryOf(def, k, RowAt(rows, k)) + EntryOf(def, k, Some(v))
            else Expected(def, rows)
  {
  }

  /** The branches of put maintenance amount to replacing the old entry by the new. */
  lemma MaintainPutEffect(def: Def, entries: set<Entry>, k: Bytes, was: Option<Bytes>, now: Bytes)
    ensures MaintainPut(def, entries, k, was, now) == entries - EntryOf(def, k, was) + EntryOf(def, k, Some(now))
  {
  }

  lemma PutKeepsIndex(def: Def, entries: set<Entry>, rows: map<Bytes, Bytes>, p: Progress, k: Bytes, v: Bytes)
    requires IndexOk(def, entries, rows, p)
    ensures IndexOk(def, AfterPut(def, entries, k, RowAt(rows, k), v), rows[k := v], p)
  {
    ExpectedAfterPut(def, rows, k, v);
    MaintainPutEffect(def, entries, k, RowAt(rows, k), v);
  }

  lemma DeleteKeepsIndex(def: Def, entries: set<Entry>, rows: map<Bytes, Bytes>, p: Progress, k: Bytes)
    requires IndexOk(def, entries, rows, p)
    ensures IndexOk(def, AfterDelete(def, entries, k, RowAt(rows, k)), rows - {k}, p)
  {
  }

  lemma TxnKey(w: TP.Write)
    requires Writable(w)
    ensures IsTxnSystemKey(TK.Encode(w).0)
  {
    if !w.PutUser? { TK.KeysApart(w.id, w.id, if w.PutRec? || w.PutDec? then [] else w.key, []); }
  }

  /** A sheltered index extracts nothing from a row of two-phase commit. */
  lemma NothingShown(def: Def, k: Bytes, v: Bytes)
    requires Sheltered(def) && TxnRow(k, v) && HasPrefix(k, def.prefix)
    ensures Extract(def.extractor, v).None?
  {
    var w :| Writable(w) && TK.Encode(w) == (k, Some(v));
    if Shows(w, def.prefix, def.extractor) {
      ShownIsExposed(w, def.prefix, def.extractor);
    }
  }

  lemma TxnRowsDoNotMatter(def: Def, rows: map<Bytes, Bytes>, w: TP.Write)
    requires Writable(w) && Sheltered(def) && TxnRowsOk(rows)
    ensures Expected(def, TP.SetUser(rows, TK.Encode(w).0, TK.Encode(w).1)) == Expected(def, rows)
  {
    var k, v := TK.Encode(w).0, TK.Encode(w).1;
    TxnKey(w);
    if HasPrefix(k, def.prefix) {
      if k in rows { NothingShown(def, k, rows[k]); }
      if v.Some? {
        assert TxnRow(k, v.value);
        NothingShown(def, k, v.value);
      }
    }
  }

  lemma TxnRowsKept(rows: map<Bytes, Bytes>, w: TP.Write)
    requires Writable(w) && TxnRowsOk(rows)
    ensures TxnRowsOk(TP.SetUser(rows, TK.Encode(w).0, TK.Encode(w).1))
  {
    assert TK.Encode(w).1.Some? ==> TxnRow(TK.Encode(w).0, TK.Encode(w).1.value);
  }

  lemma {:induction false} EntriesForMember(def: Def, rows: map<Bytes, Bytes>, keys: seq<Bytes>, e: Entry)
    ensures e in EntriesFor(def, rows, keys) <==> e.1 in keys && e in EntryOf(def, e.1, RowAt(rows, e.1))
    decreases |keys|
  {
    if keys != [] { EntriesForMember(def, rows, keys[1..], e); }
  }

  /** A batch is the smallest keys still to visit. */
  lemma BatchIsLowest(keys: seq<Bytes>, n: nat, k: Bytes)
    requires StrictlySorted(keys) && k in keys && Batch(keys, n) != []
    requires LessEq(k, Batch(keys, n)[|Batch(keys, n)| - 1])
    ensures k in Batch(keys, n)
  {
    var taken := Batch(keys, n);
    var i :| 0 <= i < |keys| && keys[i] == k;
    var last := |taken| - 1;
    assert taken[last] == keys[last];
    if i > last {
      LessAsymmetric(keys[last], keys[i]);
    } else {
      assert taken[i] == k;
    }
  }

  lemma StepAddsExpected(def: Def, entries: set<Entry>, rows: map<Bytes, Bytes>, p: Progress, n: nat)
    requires entries <= Expected(def, rows)
    ensures StepEntries(def, rows, entries, p, n) <= Expected(def, rows)
  {
    var todo := Todo(def, rows, p.lastKey);
    forall e | e in EntriesFor(def, rows, Batch(todo, n)) ensures e in Expected(def, rows) {
      EntriesForMember(def, rows, Batch(todo, n), e);
      assert e.1 in todo;
      ExpectedMember(def, rows, e);
    }
  }

  /** After a step, an expected entry is there if its key is up to the new cursor, and
      in any case once the step completes the backfill. */
  lemma StepCovers(def: Def, entries: set<Entry>, rows: map<Bytes, Bytes>, p: Progress, n: nat, e: Entry)
    requires n > 0 && Covered(def, entries, rows, p.lastKey) && e in Expected(def, rows)
    requires var q := StepProgress(def, rows, p, n);
             q.status == Complete || (q.lastKey.Some? && LessEq(e.1, q.lastKey.value))
    ensures e in StepEntries(def, rows, entries, p, n)
  {
    var todo := Todo(def, rows, p.lastKey);
    var taken := Batch(todo, n);
    ExpectedMember(def, rows, e);
    if p.lastKey.Some? {
      LessTotal(p.lastKey.value, e.1);
    }
    if !(p.lastKey.Some? && LessEq(e.1, p.lastKey.value)) {
      assert e.1 in todo;
      if |todo| >= n {
        BatchIsLowest(todo, n, e.1);
      }
      EntriesForMember(def, rows, taken, e);
    }
  }

  lemma StepKeepsIndex(def: Def, entries: set<Entry>, rows: map<Bytes, Bytes>, p: Progress, n: nat)
    requires n > 0 && IndexOk(def, entries, rows, p)
    ensures IndexOk(def, StepEntries(def, rows, entries, p, n), rows, StepProgress(def, rows, p, n))
  {
    StepAddsExpected(def, entries, rows, p, n);
    var q := StepProgress(def, rows, p, n);
    forall e | e in Expected(def, rows) && (q.status == Complete || (q.lastKey.Some? && LessEq(e.1, q.lastKey.value)))
      ensures e in StepEntries(def, rows, entries, p, n)
    {
      StepCovers(def, entries, rows, p, n, e);
    }
  }

  lemma SyncBackfillExact(def: Def, rows: map<Bytes, Bytes>)
    ensures EntriesFor(def, rows, Todo(def, rows, None)) == Expected(def, rows)
  {
    forall e ensures e in EntriesFor(def, rows, Todo(def, rows, None)) <==> e in Expected(def, rows) {
      EntriesForMember(def, rows, Todo(def, rows, None), e);
      ExpectedMember(def, rows, e);
    }
  }

  lemma PutKeepsDb(db: Db, k: Bytes, v: Bytes)
    requires DbOk(db)
    ensures DbOk(Next(db, Put(k, v)))
  {
    var after := Next(db, Put(k, v));
    forall n | n in after.defs && Sheltered(after.defs[n])
      ensures IndexOk(after.defs[n], after.entries[n], after.rows, after.progress[n])
    {
      PutKeepsIndex(db.defs[n], db.entries[n], db.rows, db.progress[n], k, v);
    }
  }

  lemma DeleteKeepsDb(db: Db, k: Bytes)
    requires DbOk(db)
    ensures DbOk(Next(db, Delete(k)))
  {
    var after := Next(db, Delete(k));
    forall n | n in after.defs && Sheltered(after.defs[n])
      ensures IndexOk(after.defs[n], after.entries[n], after.rows, after.progress[n])
    {
      DeleteKeepsIndex(db.defs[n], db.entries[n], db.rows, db.progress[n], k);
    }
  }

  lemma TxnKeepsDb(db: Db, w: TP.Write)
    requires DbOk(db)
    ensures DbOk(Next(db, Txn(w)))
  {
    var after := Next(db, Txn(w));
    if Writable(w) {
      TxnRowsKept(db.rows, w);
      forall n | n in after.defs && Sheltered(after.defs[n])
        ensures IndexOk(after.defs[n], after.entries[n], after.rows, after.progress[n])
      {
        TxnRowsDoNotMatter(db.defs[n], db.rows, w);
      }
    }
  }

  lemma CreateKeepsDb(db: Db, name: Bytes, prefix: Bytes, extractor: Extractor, online: bool)
    requires DbOk(db)
    ensures DbOk(Next(db, Create(name, prefix, extractor, online)))
  {
    SyncBackfillExact(Def(prefix, extractor), db.rows);
  }

  lemma StepKeepsDb(db: Db, name: Bytes, n: nat)
    requires DbOk(db)
    ensures DbOk(Next(db, Step(name, n)))
  {
    if n > 0 && name in db.defs && Sheltered(db.defs[name]) {
      StepKeepsIndex(db.defs[name], db.entries[name], db.rows, db.progress[name], n);
    }
  }

  lemma OpKeepsDb(db: Db, op: Op)
    requires DbOk(db)
    ensures DbOk(Next(db, op))
  {
    match op
    case Put(k, v) => PutKeepsDb(db, k, v);
    case Delete(k) => DeleteKeepsDb(db, k);
    case Txn(w) => TxnKeepsDb(db, w);
    case Create(name, prefix, extractor, online) => CreateKeepsDb(db, name, prefix, extractor, online);
    case Drop(_) =>
    case Step(name, n) => StepKeepsDb(db, name, n);
    case Pause(_) =>
    case Resume(_) =>
  }

  lemma {:induction false} RunKeepsDb(db: Db, ops: seq<Op>)
    requires DbOk(db)
    ensures DbOk(Run(db, ops))
    decreases |ops|
  {
    if ops != [] {
      OpKeepsDb(db, ops[0]);
      RunKeepsDb(Next(db, ops[0]), ops[1..]);
    }
  }

  /** Across any writes, creations, drops and backfill steps, an index never holds an
      extra entry, and once its backfill is complete it holds exactly the extracted
      primaries. */
  lemma IndexMatchesRows(rows: map<Bytes, Bytes>, ops: seq<Op>, name: Bytes)
    requires TxnRowsOk(rows) && name in Run(Db(rows, map[], map[], map[]), ops).defs
    requires Sheltered(Run(Db(rows, map[], map[], map[]), ops).defs[name])
    ensures var db := Run(Db(rows, map[], map[], map[]), ops);
            && name in db.entries && name in db.progress
            && db.entries[name] <= Expected(db.defs[name], db.rows)
            && (db.progress[name].status == Complete ==> db.entries[name] == Expected(db.defs[name], db.rows))
  {
    RunKeepsDb(Db(rows, map[], map[], map[]), ops);
  }

  /** Once complete, the index `name` over `def` holds exactly what the rows call for. */
  ghost predicate ExactAfter(name: Bytes, def: Def, ops: seq<Op>) {
    var db := Run(EMPTY_DB, ops);
    name in db.defs && name in db.entries && name in db.progress && db.defs[name] == def && db.progress[name].status == Complete ==>
      db.entries[name] == Expected(def, db.rows)
  }

  const EMPTY_DB := Db(map[], map[], map[], map[])

  function TxnOps(ws: seq<TP.Write>): seq<Op> {
    if ws == [] then [] else [Txn(ws[0])] + TxnOps(ws[1..])
  }

  /** Writes of two-phase commit change rows only, and the last one is there. */
  lemma {:induction false} AfterTxn(db: Db, ws: seq<TP.Write>)
    ensures Run(db, TxnOps(ws)) == db.(rows := Run(db, TxnOps(ws)).rows)
    ensures ws != [] && Writable(ws[|ws| - 1]) && TK.Encode(ws[|ws| - 1]).1.Some? ==>
              RowAt(Run(db, TxnOps(ws)).rows, TK.Encode(ws[|ws| - 1]).0) == TK.Encode(ws[|ws| - 1]).1
    decreases |ws|
  {
    if ws != [] {
      assert TxnOps(ws)[1..] == TxnOps(ws[1..]);
      AfterTxn(Next(db, Txn(ws[0])), ws[1..]);
    }
  }

  /** A row with a secondary that no maintenance saw makes an empty index inexact. */
  lemma MissedRow(def: Def, rows: map<Bytes, Bytes>, k: Bytes)
    requires k in rows && HasPrefix(k, def.prefix) && Extract(def.extractor, rows[k]).Some?
    ensures Expected(def, rows) != {}
  {
    ExpectedMember(def, rows, (Extract(def.extractor, rows[k]).value, k));
  }

  /** The writes of a two-phase operation on an empty participant, up to one that puts a
      row with a secondary under the prefix, make a complete index inexact. */
  lemma ScriptMakesStale(name: Bytes, def: Def, ws: seq<TP.Write>)
    requires ValidName(name) && KeyLenOk(def.prefix)
    requires ws != [] && Writable(ws[|ws| - 1]) && Shows(ws[|ws| - 1], def.prefix, def.extractor)
    ensures !ExactAfter(name, def, [Create(name, def.prefix, def.extractor, false)] + TxnOps(ws))
  {
    var create := Create(name, def.prefix, def.extractor, false);
    var ops, first := [create] + TxnOps(ws), FreshIndex(name, def);
    CreatedFresh(name, def);
    assert ops[1..] == TxnOps(ws) && Run(EMPTY_DB, ops) == Run(first, TxnOps(ws));
    AfterTxn(first, ws);
    MissedRow(def, Run(first, TxnOps(ws)).rows, TK.Encode(ws[|ws| - 1]).0);
  }

  /** One complete index over no rows. */
  function FreshIndex(name: Bytes, def: Def): Db {
    Db(map[], map[name := def], map[name := {}], map[name := Progress(Complete, None)])
  }

  lemma CreatedFresh(name: Bytes, def: Def)
    requires ValidName(name) && KeyLenOk(def.prefix)
    ensures Next(EMPTY_DB, Create(name, def.prefix, def.extractor, false)) == FreshIndex(name, def)
  {
    SyncBackfillExact(def, map[]);
    assert Expected(def, map[]) == {};
  }

  /** An index is exact in every run exactly when no write of two-phase commit under its
      prefix has a secondary, which prefix and extractor alone decide. */
  lemma ExactIffSheltered(name: Bytes, def: Def)
    requires ValidName(name) && KeyLenOk(def.prefix)
    ensures (forall ops :: ExactAfter(name, def, ops)) <==> Sheltered(def)
  {
    if Sheltered(def) {
      forall ops ensures ExactAfter(name, def, ops) {
        RunKeepsDb(EMPTY_DB, ops);
      }
    } else {
      var w := ExposedIsShown(def.prefix, def.extractor);
      var op, n := WriteIsIssued(w);
      ScriptMakesStale(name, def, TP.Script(NOTHING, op)[..n + 1]);
    }
  }

  /** The first write of a prepare, under an index of whole values over the records. */
  lemma RecordMakesStale(name: Bytes, id: TP.TxnId)
    requires ValidName(name)
    ensures !ExactAfter(name, Def(TK.TXN_REC_PREFIX, WholeValue),
                        [Create(name, TK.TXN_REC_PREFIX, WholeValue, false), Txn(TP.PutRec(id, TP.Preparing))])
  {
    var w := TP.PutRec(id, TP.Preparing);
    assert HasPrefix(TK.RecKey(id), TK.TXN_REC_PREFIX);
    assert TxnOps([w]) == [Txn(w)];
    assert [Create(name, TK.TXN_REC_PREFIX, WholeValue, false)] + TxnOps([w])
        == [Create(name, TK.TXN_REC_PREFIX, WholeValue, false), Txn(w)];
    ScriptMakesStale(name, Def(TK.TXN_REC_PREFIX, WholeValue), [w]);
  }

  // ---- Verification ----

  datatype Divergence = MissingInIndex(primary: Bytes, secondary: Bytes) | ExtraInIndex(primary: Bytes, secondary: Bytes)

  function Secondary(def: Def, rows: map<Bytes, Bytes>, p: Bytes): Option<Bytes> {
    if p in rows then Extract(def.extractor, rows[p]) else None
  }

  /** The secondary each indexed primary should have. */
  method ExpectedSecondaries(def: Def, rows: map<Bytes, Bytes>) returns (expected: map<Bytes, Bytes>)
    ensures forall p, s :: (p in expected && expected[p] == s) <==> (s, p) in Expected(def, rows)
  {
    var keys := Sorted(set k | k in rows && HasPrefix(k, def.prefix));
    expected := map[];
    for i := 0 to |keys|
      invariant forall p :: p in expected <==> p in keys[..i] && Secondary(def, rows, p).Some?
      invariant forall p :: p in expected ==> Secondary(def, rows, p) == Some(expected[p])
    {
      assert keys[i] in keys && forall p :: p in keys[..i + 1] <==> p in keys[..i] || p == keys[i];
      var sec := Extract(def.extractor, rows[keys[i]]);
      if sec.Some? {
        expected := expected[keys[i] := sec.value];
      }
    }
    assert keys[..|keys|] == keys;
    forall p, s ensures (p in expected && expected[p] == s) <==> (s, p) in Expected(def, rows) {
      ExpectedMember(def, rows, (s, p));
    }
  }

  /** Compares the scanned entries with the rows: a divergence for every entry the rows
      do not call for and for every called-for entry that is not there. */
  method Compare(def: Def, rows: map<Bytes, Bytes>, entries: seq<Entry>) returns (out: seq<Divergence>)
    ensures forall s, p :: ExtraInIndex(p, s) in out <==> (s, p) in entries && (s, p) !in Expected(def, rows)
    ensures forall s, p :: MissingInIndex(p, s) in out <==> (s, p) in Expected(def, rows) && (s, p) !in entries
  {
    var expected := ExpectedSecondaries(def, rows);
    var extras, seen := FindExtras(expected, entries);
    var missing := FindMissing(expected, seen);
    out := extras + missing;
    forall s, p ensures ExtraInIndex(p, s) in out <==> (s, p) in entries && (s, p) !in Expected(def, rows) {
      assert ExtraInIndex(p, s) in out <==> ExtraInIndex(p, s) in extras;
    }
    forall s, p ensures MissingInIndex(p, s) in out <==> (s, p) in Expected(def, rows) && (s, p) !in entries {
      assert MissingInIndex(p, s) in out <==> MissingInIndex(p, s) in missing;
    }
  }

  predicate Matches(expected: map<Bytes, Bytes>, e: Entry) {
    e.1 in expected && expected[e.1] == e.0
  }

  method FindExtras(expected: map<Bytes, Bytes>, entries: seq<Entry>) returns (extras: seq<Divergence>, seen: set<Bytes>)
    ensures forall s, p :: ExtraInIndex(p, s) in extras <==> (s, p) in entries && !Matches(expected, (s, p))
    ensures forall d :: d in extras ==> d.ExtraInIndex?
    ensures forall p :: p in seen <==> exists e :: e in entries && Matches(expected, e) && e.1 == p
  {
    extras, seen := [], {};
    for i := 0 to |entries|
      invariant forall s, p :: ExtraInIndex(p, s) in extras <==> (s, p) in entries[..i] && !Matches(expected, (s, p))
      invariant forall d :: d in extras ==> d.ExtraInIndex?
      invariant forall p :: p in seen <==> exists e :: e in entries[..i] && Matches(expected, e) && e.1 == p
    {
      var e := entries[i];
      assert forall x :: x in entries[..i + 1] <==> x in entries[..i] || x == e;
      if Matches(expected, e) {
        seen := seen + {e.1};
      } else {
        extras := extras + [ExtraInIndex(e.1, e.0)];
      }
    }
    assert entries[..|entries|] == entries;
  }

  method FindMissing(expected: map<Bytes, Bytes>, seen: set<Bytes>) returns (missing: seq<Divergence>)
    ensures forall s, p :: MissingInIndex(p, s) in missing <==> p in expected && expected[p] == s && p !in seen
    ensures forall d :: d in missing ==> d.MissingInIndex?
  {
    var keys := Sorted(expected.Keys);
    missing := [];
    for i := 0 to |keys|
      invariant forall s, p :: MissingInIndex(p, s) in missing <==> p in keys[..i] && p in expected && expected[p] == s && p !in seen
      invariant forall d :: d in missing ==> d.MissingInIndex?
    {
      assert keys[i] in keys && forall p :: p in keys[..i + 1] <==> p in keys[..i] || p == keys[i];
      if keys[i] !in seen {
        missing := missing + [MissingInIndex(keys[i], expected[keys[i]])];
      }
    }
    assert keys[..|keys|] == keys;
  }

  /** Nothing is reported exactly when the entries are the expected set. */
  lemma CleanReportMeansExact(def: Def, rows: map<Bytes, Bytes>, entries: seq<Entry>, out: seq<Divergence>)
    requires forall s, p :: ExtraInIndex(p, s) in out <==> (s, p) in entries && (s, p) !in Expected(def, rows)
    requires forall s, p :: MissingInIndex(p, s) in out <==> (s, p) in Expected(def, rows) && (s, p) !in entries
    ensures out == [] <==> forall e :: e in entries <==> e in Expected(def, rows)
  {
    if out == [] {
      forall e ensures e in entries <==> e in Expected(def, rows) {
        assert ExtraInIndex(e.1, e.0) !in out && MissingInIndex(e.1, e.0) !in out;
        assert e == (e.0, e.1);
      }
    } else {
      var d := out[0];
      assert d in out;
      match d
      case ExtraInIndex(p, s) => assert (s, p) in entries && (s, p) !in Expected(def, rows);
      case MissingInIndex(p, s) => assert (s, p) !in entries && (s, p) in Expected(def, rows);
    }
  }

  lemma EntriesForMore(def: Def, rows: map<Bytes, Bytes>, keys: seq<Bytes>, i: nat)
    requires i < |keys|
    ensures EntriesFor(def, rows, keys[..i + 1]) == EntriesFor(def, rows, keys[..i]) + EntryOf(def, keys[i], RowAt(rows, keys[i]))
  {
    var more, some := EntriesFor(def, rows, keys[..i + 1]), EntriesFor(def, rows, keys[..i]) + EntryOf(def, keys[i], RowAt(rows, keys[i]));
    assert forall k :: k in keys[..i + 1] <==> k in keys[..i] || k == keys[i];
    forall e ensures e in more <==> e in some {
      EntriesForMember(def, rows, keys[..i + 1], e);
      EntriesForMember(def, rows, keys[..i], e);
    }
  }
}
