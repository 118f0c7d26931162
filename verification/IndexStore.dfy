/** Indexes kept in the key space itself: every write, backfill, drop and scan works on
    entry keys, and what they amount to is the model of rows and entry sets. */
module IndexStore {
  import opened ByteStrings
  import opened SystemKeys
  import opened IndexKeys
  import opened Indexes
  import opened IndexExposure
  import TP = TwoPhase
  import TK = TxnKeys

  /** `\x00idx/meta/` */
  const INDEX_META_PREFIX: Bytes := [0, 105, 100, 120, 47, 109, 101, 116, 97, 47]

  function MetaKey(name: Bytes): Bytes {
    INDEX_META_PREFIX + name
  }

  /** The latest rows outside the index key space. */
  function RowsOf(kv: map<Bytes, Bytes>): map<Bytes, Bytes> {
    map k | k in kv && !IsIndexSystemKey(k) :: kv[k]
  }

  ghost function EntriesOf(kv: map<Bytes, Bytes>, defs: map<Bytes, Def>): map<Bytes, set<Entry>> {
    map n | n in defs :: StoredEntries(kv, n)
  }

  /** What the stored keys stand for. */
  ghost function ViewOf(kv: map<Bytes, Bytes>, defs: map<Bytes, Def>, progress: map<Bytes, Progress>): Db {
    Db(RowsOf(kv), defs, EntriesOf(kv, defs), progress)
  }

  /** Registered names are valid, a name that is not registered has no entries, and
      row keys have a length an entry key can record. */
  ghost predicate KeysOk(kv: map<Bytes, Bytes>, defs: map<Bytes, Def>) {
    && (forall n :: n in defs ==> ValidName(n))
    && (forall n :: ValidName(n) && n !in defs ==> StoredEntries(kv, n) == {})
    && (forall k :: k in kv && !IsIndexSystemKey(k) ==> KeyLenOk(k))
  }

  // ---- What single writes do to the view ----

  lemma EntryKeyIsSystem(name: Bytes, s: Bytes, p: Bytes)
    ensures IsIndexSystemKey(DataKey(name, s, p))
  {
  }

  lemma PutRow(kv: map<Bytes, Bytes>, defs: map<Bytes, Def>, progress: map<Bytes, Progress>, k: Bytes, v: Bytes)
    requires !IsIndexSystemKey(k) && KeyLenOk(k) && KeysOk(kv, defs)
    ensures KeysOk(kv[k := v], defs)
    ensures ViewOf(kv[k := v], defs, progress) == ViewOf(kv, defs, progress).(rows := RowsOf(kv)[k := v])
  {
    forall n ensures StoredEntries(kv[k := v], n) == StoredEntries(kv, n) { OutsideKeeps(kv, k, v, n); }
    assert RowsOf(kv[k := v]) == RowsOf(kv)[k := v];
  }

  lemma DeleteRow(kv: map<Bytes, Bytes>, defs: map<Bytes, Def>, progress: map<Bytes, Progress>, k: Bytes)
    requires !IsIndexSystemKey(k) && KeysOk(kv, defs)
    ensures KeysOk(kv - {k}, defs)
    ensures ViewOf(kv - {k}, defs, progress) == ViewOf(kv, defs, progress).(rows := RowsOf(kv) - {k})
  {
    forall n ensures StoredEntries(kv - {k}, n) == StoredEntries(kv, n) { OutsideKeeps(kv, k, [], n); }
    assert RowsOf(kv - {k}) == RowsOf(kv) - {k};
  }

  lemma PutEntry(kv: map<Bytes, Bytes>, defs: map<Bytes, Def>, progress: map<Bytes, Progress>, n: Bytes, s: Bytes, p: Bytes, v: Bytes)
    requires KeysOk(kv, defs) && n in defs && KeyLenOk(p)
    ensures var after := kv[DataKey(n, s, p) := v];
            && KeysOk(after, defs)
            && ViewOf(after, defs, progress)
               == ViewOf(kv, defs, progress).(entries := EntriesOf(kv, defs)[n := StoredEntries(kv, n) + {(s, p)}])
  {
    var after := kv[DataKey(n, s, p) := v];
    EntryKeyIsSystem(n, s, p);
    EntryPutKeys(kv, defs, n, s, p, v);
    EntryPutEntries(kv, defs, n, s, p, v);
    assert RowsOf(after) == RowsOf(kv);
  }

  lemma EntryPutKeys(kv: map<Bytes, Bytes>, defs: map<Bytes, Def>, n: Bytes, s: Bytes, p: Bytes, v: Bytes)
    requires KeysOk(kv, defs) && n in defs && KeyLenOk(p)
    ensures KeysOk(kv[DataKey(n, s, p) := v], defs)
  {
    EntryKeyIsSystem(n, s, p);
    forall m | ValidName(m) && m !in defs ensures StoredEntries(kv[DataKey(n, s, p) := v], m) == {} {
      EntryPut(kv, n, s, p, v, m);
    }
  }

  lemma EntryPutEntries(kv: map<Bytes, Bytes>, defs: map<Bytes, Def>, n: Bytes, s: Bytes, p: Bytes, v: Bytes)
    requires KeysOk(kv, defs) && n in defs && KeyLenOk(p)
    ensures EntriesOf(kv[DataKey(n, s, p) := v], defs) == EntriesOf(kv, defs)[n := StoredEntries(kv, n) + {(s, p)}]
  {
    forall m | m in defs
      ensures StoredEntries(kv[DataKey(n, s, p) := v], m) == if m == n then StoredEntries(kv, n) + {(s, p)} else StoredEntries(kv, m)
    {
      EntryPut(kv, n, s, p, v, m);
    }
  }

  lemma DeleteEntry(kv: map<Bytes, Bytes>, defs: map<Bytes, Def>, progress: map<Bytes, Progress>, n: Bytes, s: Bytes, p: Bytes)
    requires KeysOk(kv, defs) && n in defs && KeyLenOk(p)
    ensures var after := kv - {DataKey(n, s, p)};
            && KeysOk(after, defs)
            && ViewOf(after, defs, progress)
               == ViewOf(kv, defs, progress).(entries := EntriesOf(kv, defs)[n := StoredEntries(kv, n) - {(s, p)}])
  {
    var after := kv - {DataKey(n, s, p)};
    EntryKeyIsSystem(n, s, p);
    forall m | ValidName(m) ensures StoredEntries(after, m) == if m == n then StoredEntries(kv, m) - {(s, p)} else StoredEntries(kv, m) {
      EntryDelete(kv, n, s, p, m);
    }
    assert RowsOf(after) == RowsOf(kv);
    assert EntriesOf(after, defs) == EntriesOf(kv, defs)[n := StoredEntries(kv, n) - {(s, p)}];
  }

  /** Metadata keys are in neither view. */
  lemma MetaKeyKeeps(kv: map<Bytes, Bytes>, defs: map<Bytes, Def>, name: Bytes, v: Bytes)
    requires KeysOk(kv, defs)
    ensures KeysOk(kv[MetaKey(name) := v], defs) && KeysOk(kv - {MetaKey(name)}, defs)
    ensures RowsOf(kv[MetaKey(name) := v]) == RowsOf(kv) == RowsOf(kv - {MetaKey(name)})
    ensures forall n :: StoredEntries(kv[MetaKey(name) := v], n) == StoredEntries(kv, n) == StoredEntries(kv - {MetaKey(name)}, n)
  {
    var k := MetaKey(name);
    assert k[5] == 109 && IsIndexSystemKey(k);
    forall n ensures StoredEntries(kv[k := v], n) == StoredEntries(kv, n) == StoredEntries(kv - {k}, n) {
      OutsideKeeps(kv, k, v, n);
    }
  }

  // ---- Dropping ----

  ghost function EntryKeys(kv: map<Bytes, Bytes>, name: Bytes): set<Bytes> {
    set k | k in kv && DecodeDataKey(name, k).Some?
  }

  /** Removing the keys that decode under a name empties that index and no other. */
  lemma DropEntries(kv: map<Bytes, Bytes>, name: Bytes, other: Bytes)
    requires |name| < 0x1_0000 && |other| < 0x1_0000
    ensures StoredEntries(kv - EntryKeys(kv, name), other) == if other == name then {} else StoredEntries(kv, other)
  {
    if other != name {
      forall k | k in kv && DecodeDataKey(other, k).Some? ensures k !in EntryKeys(kv, name) {
        if DecodeDataKey(name, k).Some? {
          DecodeExact(name, k);
          DecodeExact(other, k);
          var d, e := DecodeDataKey(name, k).value, DecodeDataKey(other, k).value;
          DataKeyInjective(name, d.0, d.1, other, e.0, e.1);
        }
      }
    }
  }

  lemma DropRows(kv: map<Bytes, Bytes>, name: Bytes)
    ensures RowsOf(kv - EntryKeys(kv, name)) == RowsOf(kv)
  {
    forall k | k in EntryKeys(kv, name) ensures IsIndexSystemKey(k) {
      assert HasPrefix(k, INDEX_DATA_PREFIX);
      assert k[..5] == INDEX_DATA_PREFIX[..5];
    }
  }

  // ---- The store ----

  class IndexedStore {
    var kv: map<Bytes, Bytes>
    var defs: map<Bytes, Def>
    var progress: map<Bytes, Progress>

    ghost function View(): Db
      reads this
    {
      ViewOf(kv, defs, progress)
    }

    ghost predicate Valid()
      reads this
    {
      KeysOk(kv, defs) && DbOk(View())
    }

    constructor (stored: map<Bytes, Bytes>)
      requires (forall k :: k in stored ==> KeyLenOk(k) && !IsIndexSystemKey(k)) && TxnRowsOk(stored)
      ensures Valid() && View() == Db(stored, map[], map[], map[])
    {
      kv, defs, progress := stored, map[], map[];
      new;
      NoEntries(kv);
      assert RowsOf(kv) == stored;
    }

    // Raw writes of entry keys.

    method WriteEntry(n: Bytes, s: Bytes, p: Bytes)
      requires KeysOk(kv, defs) && n in defs && KeyLenOk(p)
      modifies this`kv
      ensures KeysOk(kv, defs)
      ensures View() == old(View()).(entries := old(View()).entries[n := old(View()).entries[n] + {(s, p)}])
    {
      PutEntry(kv, defs, progress, n, s, p, []);
      kv := kv[DataKey(n, s, p) := []];
    }

    method RemoveEntry(n: Bytes, s: Bytes, p: Bytes)
      requires KeysOk(kv, defs) && n in defs && KeyLenOk(p)
      modifies this`kv
      ensures KeysOk(kv, defs)
      ensures View() == old(View()).(entries := old(View()).entries[n := old(View()).entries[n] - {(s, p)}])
    {
      DeleteEntry(kv, defs, progress, n, s, p);
      kv := kv - {DataKey(n, s, p)};
    }

    // Maintenance after a row was written or deleted.

    method MaintainOnePut(n: Bytes, k: Bytes, was: Option<Bytes>, v: Bytes)
      requires KeysOk(kv, defs) && n in defs && KeyLenOk(k)
      modifies this`kv
      ensures KeysOk(kv, defs)
      ensures View() == old(View()).(entries := old(View()).entries[n := AfterPut(defs[n], old(View()).entries[n], k, was, v)])
    {
      if !HasPrefix(k, defs[n].prefix) {
        Untouched(View(), n);
        return;
      }
      var e := defs[n].extractor;
      var oldSec := if was.Some? then Extract(e, was.value) else None;
      var newSec := Extract(e, v);
      if oldSec.Some? {
        if newSec != oldSec {
          RemoveEntry(n, oldSec.value, k);
        } else {
          StoredMember(kv, n, oldSec.value, k);
          if DataKey(n, oldSec.value, k) !in kv {
            WriteEntry(n, oldSec.value, k);
          } else {
            Present(View(), n, (oldSec.value, k));
          }
          return;
        }
      }
      if newSec.Some? {
        WriteEntry(n, newSec.value, k);
      } else if oldSec.None? {
        Untouched(View(), n);
      }
    }

    method MaintainOneDelete(n: Bytes, k: Bytes, was: Option<Bytes>)
      requires KeysOk(kv, defs) && n in defs && KeyLenOk(k)
      modifies this`kv
      ensures KeysOk(kv, defs)
      ensures View() == old(View()).(entries := old(View()).entries[n := AfterDelete(defs[n], old(View()).entries[n], k, was)])
    {
      var sec := if was.Some? then Extract(defs[n].extractor, was.value) else None;
      if HasPrefix(k, defs[n].prefix) && sec.Some? {
        RemoveEntry(n, sec.value, k);
      } else {
        Untouched(View(), n);
      }
    }

    /** Visits every registered index whose prefix the key has. */
    method MaintainAfterPut(k: Bytes, was: Option<Bytes>, v: Bytes)
      requires KeysOk(kv, defs) && KeyLenOk(k)
      modifies this`kv
      ensures KeysOk(kv, defs) && View() == old(View()).(entries := PutEntries(old(View()), k, was, v))
    {
      ghost var before := View();
      ghost var want := PutEntries(before, k, was, v);
      var names := defs.Keys;
      Ends(before, want);
      while names != {}
        invariant names <= defs.Keys && KeysOk(kv, defs) && View() == Partly(before, want, names)
        decreases |names|
      {
        var n :| n in names;
        OneMore(before, want, names, n);
        MaintainOnePut(n, k, was, v);
        names := names - {n};
      }
    }

    method MaintainAfterDelete(k: Bytes, was: Option<Bytes>)
      requires KeysOk(kv, defs) && KeyLenOk(k)
      modifies this`kv
      ensures KeysOk(kv, defs) && View() == old(View()).(entries := DeleteEntries(old(View()), k, was))
    {
      ghost var before := View();
      ghost var want := DeleteEntries(before, k, was);
      var names := defs.Keys;
      Ends(before, want);
      while names != {}
        invariant names <= defs.Keys && KeysOk(kv, defs) && View() == Partly(before, want, names)
        decreases |names|
      {
        var n :| n in names;
        OneMore(before, want, names, n);
        MaintainOneDelete(n, k, was);
        names := names - {n};
      }
    }

    // Public operations.

    method Put(k: Bytes, v: Bytes)
      requires Valid()
      modifies this
      ensures Valid() && View() == Next(old(View()), Op.Put(k, v))
    {
      if !UserKey(k) {
        return;
      }
      OpKeepsDb(View(), Op.Put(k, v));
      var was := if k in kv then Some(kv[k]) else None;
      assert was == RowAt(View().rows, k);
      PutRow(kv, defs, progress, k, v);
      kv := kv[k := v];
      MaintainAfterPut(k, was, v);
    }

    method Delete(k: Bytes)
      requires Valid()
      modifies this
      ensures Valid() && View() == Next(old(View()), Op.Delete(k))
    {
      if !UserKey(k) {
        return;
      }
      OpKeepsDb(View(), Op.Delete(k));
      var was := if k in kv then Some(kv[k]) else None;
      assert was == RowAt(View().rows, k);
      DeleteRow(kv, defs, progress, k);
      kv := kv - {k};
      MaintainAfterDelete(k, was);
    }

    /** Records, decisions and intents are written without index maintenance. */
    method TxnWrite(w: TP.Write)
      requires Valid() && Writable(w)
      modifies this
      ensures Valid() && View() == Next(old(View()), Txn(w))
    {
      OpKeepsDb(View(), Txn(w));
      var k, v := TK.Encode(w).0, TK.Encode(w).1;
      TxnKey(w);
      if v.Some? {
        PutRow(kv, defs, progress, k, v.value);
        kv := kv[k := v.value];
      } else {
        DeleteRow(kv, defs, progress, k);
        kv := kv - {k};
      }
    }

    /** The entry of one row, if its value has a secondary. */
    method InsertEntryFor(name: Bytes, k: Bytes)
      requires KeysOk(kv, defs) && name in defs && k in RowsOf(kv)
      modifies this`kv
      ensures KeysOk(kv, defs) && View() == WithEntry(old(View()), name, k)
    {
      var sec := Extract(defs[name].extractor, kv[k]);
      if sec.Some? {
        WriteEntry(name, sec.value, k);
      }
    }

    /** Writes the entries of the next `n` keys; true when fewer were left. */
    method Visit(name: Bytes, todo: seq<Bytes>, n: nat) returns (done: bool)
      requires KeysOk(kv, defs) && name in defs && n > 0
      requires forall k :: k in todo ==> k in RowsOf(kv)
      modifies this`kv
      ensures KeysOk(kv, defs) && done == (|todo| < n)
      ensures View() == Filled(old(View()), name, Batch(todo, n))
    {
      ghost var before := View();
      var processed := 0;
      FilledNone(before, name);
      for i := 0 to |todo|
        invariant processed == i < n && KeysOk(kv, defs) && View() == Filled(before, name, todo[..processed])
      {
        assert todo[i] in todo;
        VisitOne(before, name, todo, i);
        processed := processed + 1;
        if processed >= n {
          break;
        }
      }
      done := processed < n;
      BatchTaken(todo, n, processed);
    }

    method VisitOne(ghost before: Db, name: Bytes, todo: seq<Bytes>, i: nat)
      requires KeysOk(kv, defs) && name in defs && i < |todo| && todo[i] in before.rows
      requires name in before.defs && name in before.entries && View() == Filled(before, name, todo[..i])
      modifies this`kv
      ensures KeysOk(kv, defs) && View() == Filled(before, name, todo[..i + 1])
    {
      FilledMore(before, name, todo, i);
      InsertEntryFor(name, todo[i]);
    }

    /** Visits up to `n` keys behind the cursor. */
    method BackfillStep(name: Bytes, n: nat)
      requires Valid()
      modifies this
      ensures Valid() && View() == Next(old(View()), Step(name, n))
    {
      OpKeepsDb(View(), Step(name, n));
      if n == 0 || name !in defs {
        return;
      }
      var p := progress[name];
      if p.status == Paused || p.status == Complete {
        return;
      }
      var todo := Todo(defs[name], RowsOf(kv), p.lastKey);
      var taken := Batch(todo, n);
      var done := Visit(name, todo, n);
      progress := progress[name := Progress(if done then Complete else Running,
                                            if taken == [] then p.lastKey else Some(taken[|taken| - 1]))];
    }

    /** Registers the index; without `online`, indexes all rows before returning. */
    method Create(name: Bytes, prefix: Bytes, extractor: Extractor, online: bool, meta: Bytes)
      requires Valid()
      modifies this
      ensures Valid() && View() == Next(old(View()), Op.Create(name, prefix, extractor, online))
    {
      OpKeepsDb(View(), Op.Create(name, prefix, extractor, online));
      if name in defs || !ValidName(name) || !KeyLenOk(prefix) {
        return;
      }
      ghost var before := View();
      Register(name, Def(prefix, extractor), online, meta);
      if !online {
        SyncBackfill(name);
      }
      CreatedView(before, View(), name, Def(prefix, extractor), online);
    }

    method Register(name: Bytes, def: Def, online: bool, meta: Bytes)
      requires KeysOk(kv, defs) && ValidName(name) && name !in defs
      modifies this
      ensures KeysOk(kv, defs)
      ensures View() == Db(old(View()).rows, old(defs)[name := def], old(View()).entries[name := {}],
                           old(progress)[name := Progress(if online then Running else Idle, None)])
    {
      MetaKeyKeeps(kv, defs, name, meta);
      assert EntriesOf(kv[MetaKey(name) := meta], defs) == EntriesOf(kv, defs);
      kv := kv[MetaKey(name) := meta];
      Registered(kv, defs, name, def);
      defs := defs[name := def];
      progress := progress[name := Progress(if online then Running else Idle, None)];
    }

    method SyncBackfill(name: Bytes)
      requires KeysOk(kv, defs) && name in defs
      modifies this`kv, this`progress
      ensures KeysOk(kv, defs)
      ensures View() == Filled(old(View()), name, Todo(defs[name], old(View()).rows, None))
                        .(progress := old(progress)[name := Progress(Complete, None)])
    {
      var todo := Todo(defs[name], RowsOf(kv), None);
      var done := Visit(name, todo, |todo| + 1);
      progress := progress[name := Progress(Complete, None)];
    }

    method ClearEntries(name: Bytes)
      requires KeysOk(kv, defs) && name in defs
      modifies this`kv
      ensures KeysOk(kv, defs - {name}) && RowsOf(kv) == RowsOf(old(kv))
      ensures EntriesOf(kv, defs - {name}) == EntriesOf(old(kv), defs) - {name}
    {
      var keys := ScanKeys(kv, name, []);
      ghost var before := kv;
      for i := 0 to |keys|
        invariant kv == before - DecodedAmong(name, keys[..i])
      {
        assert forall k :: k in keys[..i + 1] <==> k in keys[..i] || k == keys[i];
        if DecodeDataKey(name, keys[i]).Some? {
          kv := kv - {keys[i]};
        }
      }
      assert keys[..|keys|] == keys;
      AllScanned(before, name);
      Dropped(before, defs, name);
    }

    /** Deletes the entry keys of the index, then its metadata. */
    method Drop(name: Bytes)
      requires Valid()
      modifies this
      ensures Valid() && View() == Next(old(View()), Op.Drop(name))
    {
      OpKeepsDb(View(), Op.Drop(name));
      if name !in defs {
        return;
      }
      ClearEntries(name);
      Unregister(name);
    }

    method Unregister(name: Bytes)
      requires KeysOk(kv, defs - {name})
      modifies this
      ensures KeysOk(kv, defs)
      ensures View() == Db(RowsOf(old(kv)), old(defs) - {name}, EntriesOf(old(kv), old(defs) - {name}), old(progress) - {name})
    {
      MetaKeyKeeps(kv, defs - {name}, name, []);
      assert EntriesOf(kv - {MetaKey(name)}, defs - {name}) == EntriesOf(kv, defs - {name});
      kv := kv - {MetaKey(name)};
      defs, progress := defs - {name}, progress - {name};
    }

    method Pause(name: Bytes)
      requires Valid()
      modifies this`progress
      ensures Valid() && View() == Next(old(View()), Op.Pause(name))
    {
      OpKeepsDb(View(), Op.Pause(name));
      if name in defs && progress[name].status == Running {
        progress := progress[name := progress[name].(status := Paused)];
      }
    }

    method Resume(name: Bytes)
      requires Valid()
      modifies this`progress
      ensures Valid() && View() == Next(old(View()), Op.Resume(name))
    {
      OpKeepsDb(View(), Op.Resume(name));
      if name in defs && (progress[name].status == Paused || progress[name].status == Idle) {
        progress := progress[name := progress[name].(status := Running)];
      }
    }

    /** The pairs of an index whose secondary has the prefix, in the order of their
        keys; never a pair the rows do not call for, and once the backfill is complete
        exactly those they do. */
    method ScanByIndex(name: Bytes, valuePrefix: Bytes) returns (r: Option<seq<Entry>>)
      requires Valid()
      ensures r.None? <==> name !in defs
      ensures r.Some? ==> InKeyOrder(name, r.value)
      ensures r.Some? && Sheltered(defs[name]) ==>
                forall s, p :: (s, p) in r.value ==> CallsFor(defs[name], View().rows, valuePrefix, s, p)
      ensures r.Some? && Sheltered(defs[name]) && progress[name].status == Complete ==>
                forall s, p :: (s, p) in r.value <==> CallsFor(defs[name], View().rows, valuePrefix, s, p)
    {
      if name !in defs {
        return None;
      }
      var out := ScanEntries(kv, name, valuePrefix);
      forall s, p ensures (s, p) in Expected(defs[name], View().rows) && HasPrefix(s, valuePrefix)
                     <==> CallsFor(defs[name], View().rows, valuePrefix, s, p) {
        ExpectedMember(defs[name], View().rows, (s, p));
      }
      assert View().entries[name] == StoredEntries(kv, name);
      r := Some(out);
    }

    /** Reports exactly the stored entries the rows do not call for and the called-for
        entries that are not stored; nothing once the backfill is complete. */
    method VerifyIndex(name: Bytes) returns (r: Option<seq<Divergence>>)
      requires Valid()
      ensures r.None? <==> name !in defs
      ensures r.Some? ==> forall s, p :: ExtraInIndex(p, s) in r.value <==>
                (s, p) in StoredEntries(kv, name) && (s, p) !in Expected(defs[name], View().rows)
      ensures r.Some? ==> forall s, p :: MissingInIndex(p, s) in r.value <==>
                (s, p) in Expected(defs[name], View().rows) && (s, p) !in StoredEntries(kv, name)
      ensures r.Some? && Sheltered(defs[name]) && progress[name].status == Complete ==> r.value == []
    {
      if name !in defs {
        return None;
      }
      var entries := ScanEntries(kv, name, []);
      var out := Compare(defs[name], RowsOf(kv), entries);
      CleanReportMeansExact(defs[name], RowsOf(kv), entries, out);
      assert View().entries[name] == StoredEntries(kv, name);
      SameMembers(entries, StoredEntries(kv, name));
      r := Some(out);
    }
  }

  /** A row under the index prefix whose extracted secondary is `s`, within the prefix. */
  ghost predicate CallsFor(def: Def, rows: map<Bytes, Bytes>, valuePrefix: Bytes, s: Bytes, p: Bytes) {
    p in rows && HasPrefix(p, def.prefix) && Extract(def.extractor, rows[p]) == Some(s) && HasPrefix(s, valuePrefix)
  }

  lemma SameMembers(entries: seq<Entry>, stored: set<Entry>)
    requires forall s, p :: (s, p) in entries <==> (s, p) in stored && HasPrefix(s, [])
    ensures forall e :: e in entries <==> e in stored
  {
    forall e ensures e in entries <==> e in stored {
      assert e == (e.0, e.1);
    }
  }

  /** Whatever keys stand for the state a run ends in, scanning them by a complete
      index returns exactly the pairs the rows call for. */
  lemma IndexScanExact(rows: map<Bytes, Bytes>, ops: seq<Op>, kv: map<Bytes, Bytes>, name: Bytes,
                       valuePrefix: Bytes, s: Bytes, p: Bytes)
    requires TxnRowsOk(rows)
    requires var db := Run(Db(rows, map[], map[], map[]), ops);
             && db == ViewOf(kv, db.defs, db.progress) && name in db.defs && ValidName(name)
             && Sheltered(db.defs[name]) && name in db.progress && db.progress[name].status == Complete
    ensures var db := Run(Db(rows, map[], map[], map[]), ops);
            (s, p) in MatchedAll(name, valuePrefix, ScanKeys(kv, name, valuePrefix))
            <==> CallsFor(db.defs[name], db.rows, valuePrefix, s, p)
  {
    var db := Run(Db(rows, map[], map[], map[]), ops);
    IndexMatchesRows(rows, ops, name);
    ScanExact(kv, name, valuePrefix, s, p);
    assert db.entries[name] == StoredEntries(kv, name);
    ExpectedMember(db.defs[name], db.rows, (s, p));
  }

  ghost function DecodedAmong(name: Bytes, keys: seq<Bytes>): set<Bytes> {
    set k | k in keys && DecodeDataKey(name, k).Some?
  }

  lemma AllScanned(kv: map<Bytes, Bytes>, name: Bytes)
    requires |name| < 0x1_0000
    ensures DecodedAmong(name, ScanKeys(kv, name, [])) == EntryKeys(kv, name)
  {
    forall k | k in kv && DecodeDataKey(name, k).Some? ensures k in ScanKeys(kv, name, []) {
      DecodeExact(name, k);
      var e := DecodeDataKey(name, k).value;
      ScanPrefixCovers(name, e.0, e.1, []);
    }
  }

  lemma Dropped(kv: map<Bytes, Bytes>, defs: map<Bytes, Def>, name: Bytes)
    requires KeysOk(kv, defs) && name in defs
    ensures var after := kv - EntryKeys(kv, name);
            && KeysOk(after, defs - {name}) && RowsOf(after) == RowsOf(kv)
            && EntriesOf(after, defs - {name}) == EntriesOf(kv, defs) - {name}
  {
    var after := kv - EntryKeys(kv, name);
    DropRows(kv, name);
    forall m | ValidName(m) ensures StoredEntries(after, m) == if m == name then {} else StoredEntries(kv, m) {
      DropEntries(kv, name, m);
    }
  }

  lemma Registered(kv: map<Bytes, Bytes>, defs: map<Bytes, Def>, name: Bytes, def: Def)
    requires KeysOk(kv, defs) && ValidName(name) && name !in defs
    ensures KeysOk(kv, defs[name := def]) && EntriesOf(kv, defs[name := def]) == EntriesOf(kv, defs)[name := {}]
  {
  }

  lemma CreatedView(before: Db, after: Db, name: Bytes, def: Def, online: bool)
    requires name !in before.defs && name !in before.entries
    requires var mid := Db(before.rows, before.defs[name := def], before.entries[name := {}],
                           before.progress[name := Progress(if online then Running else Idle, None)]);
             after == if online then mid
                      else Filled(mid, name, Todo(def, before.rows, None)).(progress := mid.progress[name := Progress(Complete, None)])
    ensures after == Created(before, name, def, online)
  {
    var all := EntriesFor(def, before.rows, Todo(def, before.rows, None));
    assert {} + all == all && before.entries[name := {}][name := all] == before.entries[name := all];
    assert before.progress[name := Progress(Idle, None)][name := Progress(Complete, None)]
        == before.progress[name := Progress(Complete, None)];
  }

  lemma BatchTaken(todo: seq<Bytes>, n: nat, m: nat)
    requires m == if |todo| < n then |todo| else n
    ensures Batch(todo, n) == todo[..m]
  {
    assert todo[..|todo|] == todo;
  }

  lemma NoEntries(kv: map<Bytes, Bytes>)
    requires forall k :: k in kv ==> !IsIndexSystemKey(k)
    ensures forall n :: StoredEntries(kv, n) == {}
  {
    forall k, n | k in kv ensures DecodeDataKey(n, k).None? {
      if HasPrefix(k, INDEX_DATA_PREFIX) {
        assert k[..5] == INDEX_DATA_PREFIX[..5];
      }
    }
  }

  lemma Present(db: Db, n: Bytes, e: Entry)
    requires n in db.entries && e in db.entries[n]
    ensures db == db.(entries := db.entries[n := db.entries[n] + {e}])
  {
    assert db.entries[n] + {e} == db.entries[n];
  }

  lemma Untouched(db: Db, n: Bytes)
    requires n in db.entries
    ensures db == db.(entries := db.entries[n := db.entries[n]]) && db.entries[n] == db.entries[n] - {}
  {
    assert db.entries == db.entries[n := db.entries[n]];
  }

  /** `want` for the indexes already visited, the old entries for those in `names`. */
  ghost function Partly(db: Db, want: map<Bytes, set<Entry>>, names: set<Bytes>): Db
    requires want.Keys == db.entries.Keys
  {
    db.(entries := map n | n in db.entries :: if n in names then db.entries[n] else want[n])
  }

  lemma Ends(db: Db, want: map<Bytes, set<Entry>>)
    requires want.Keys == db.entries.Keys
    ensures Partly(db, want, db.entries.Keys) == db && Partly(db, want, {}) == db.(entries := want)
  {
    assert Partly(db, want, db.entries.Keys).entries == db.entries && Partly(db, want, {}).entries == want;
  }

  lemma OneMore(db: Db, want: map<Bytes, set<Entry>>, names: set<Bytes>, n: Bytes)
    requires want.Keys == db.entries.Keys && n in names && n in want
    ensures var now := Partly(db, want, names);
            && n in now.entries && now.entries[n] == db.entries[n]
            && Partly(db, want, names - {n}) == now.(entries := now.entries[n := want[n]])
  {
    assert Partly(db, want, names - {n}).entries == Partly(db, want, names).entries[n := want[n]];
  }

  /** The index with the entries of these keys added. */
  ghost function Filled(db: Db, name: Bytes, keys: seq<Bytes>): Db
    requires name in db.defs && name in db.entries
  {
    db.(entries := db.entries[name := db.entries[name] + EntriesFor(db.defs[name], db.rows, keys)])
  }

  lemma FilledNone(db: Db, name: Bytes)
    requires name in db.defs && name in db.entries
    ensures Filled(db, name, []) == db
  {
    assert db.entries[name] + {} == db.entries[name];
    assert db.entries[name := db.entries[name]] == db.entries;
  }

  ghost function WithEntry(db: Db, name: Bytes, k: Bytes): Db
    requires name in db.defs && name in db.entries && k in db.rows
  {
    var sec := Extract(db.defs[name].extractor, db.rows[k]);
    if sec.Some? then db.(entries := db.entries[name := db.entries[name] + {(sec.value, k)}]) else db
  }

  lemma FilledMore(db: Db, name: Bytes, keys: seq<Bytes>, i: nat)
    requires name in db.defs && name in db.entries && i < |keys| && keys[i] in db.rows
    ensures Filled(db, name, keys[..i + 1]) == WithEntry(Filled(db, name, keys[..i]), name, keys[i])
  {
    EntriesForMore(db.defs[name], db.rows, keys, i);
    var def := db.defs[name];
    var one := EntryOf(def, keys[i], Some(db.rows[keys[i]]));
    var some := EntriesFor(def, db.rows, keys[..i]);
    assert db.entries[name] + (some + one) == db.entries[name] + some + one;
    assert db.entries[name := db.entries[name] + some][name := db.entries[name] + some + one]
        == db.entries[name := db.entries[name] + some + one];
    assert one == {} ==> some + one == some;
  }
}
