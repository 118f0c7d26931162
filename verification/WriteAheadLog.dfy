/** The write-ahead log as an append-only list of records, and the two readings of
    it that every other structure has to agree with. */
module WriteAheadLog {
  import opened ByteStrings
  import opened Versions

  /** One logged write; `None` is a delete. */
  datatype Record = Record(sequence: nat, key: Bytes, val: Option<Bytes>)

  ghost predicate Increasing(log: seq<Record>) {
    forall i, j :: 0 <= i < j < |log| ==> log[i].sequence < log[j].sequence
  }

  function Last(log: seq<Record>): nat {
    if log == [] then 0 else log[|log| - 1].sequence
  }

  /** Every version ever logged. */
  function LogTable(log: seq<Record>): Table {
    if log == [] then map[] else
      var r := log[|log| - 1];
      LogTable(log[..|log| - 1])[Key(r.key, r.sequence) := r.val]
  }

  /** The key-value store the log describes, write by write. */
  function Contents(log: seq<Record>): map<Bytes, Bytes> {
    if log == [] then map[] else
      var r := log[|log| - 1];
      var before := Contents(log[..|log| - 1]);
      if r.val.Some? then before[r.key := r.val.value] else before - {r.key}
  }

  function Lookup(m: map<Bytes, Bytes>, k: Bytes): Option<Bytes> {
    if k in m then Some(m[k]) else None
  }

  ghost predicate Logged(log: seq<Record>, q: Key) {
    exists i :: 0 <= i < |log| && log[i].key == q.user && log[i].sequence == q.ts
  }

  lemma {:induction false} LogTableMember(log: seq<Record>, q: Key)
    ensures q in LogTable(log) <==> Logged(log, q)
  {
    if log != [] {
      var init := log[..|log| - 1];
      LogTableMember(init, q);
      if Logged(init, q) {
        var i :| 0 <= i < |init| && init[i].key == q.user && init[i].sequence == q.ts;
        assert log[i] == init[i];
      }
      if Logged(log, q) {
        var i :| 0 <= i < |log| && log[i].key == q.user && log[i].sequence == q.ts;
        if i < |init| {
          assert init[i] == log[i];
        }
      }
    }
  }

  lemma LogTableAppend(log: seq<Record>, r: Record)
    ensures LogTable(log + [r]) == LogTable(log)[Key(r.key, r.sequence) := r.val]
    ensures Contents(log + [r]) ==
            if r.val.Some? then Contents(log)[r.key := r.val.value] else Contents(log) - {r.key}
    ensures Last(log + [r]) == r.sequence
  {
    assert (log + [r])[..|log|] == log;
  }

  lemma {:induction false} BelowLast(log: seq<Record>, q: Key)
    requires Increasing(log) && q in LogTable(log)
    ensures q.ts <= Last(log)
  {
    LogTableMember(log, q);
  }

  /** Reading the newest logged version is reading the replayed store. */
  lemma {:induction false} NewestIsContents(log: seq<Record>, k: Bytes)
    requires Increasing(log)
    ensures ValueOf(Newest(LogTable(log), k)) == Lookup(Contents(log), k)
  {
    if log != [] {
      var init, r := log[..|log| - 1], log[|log| - 1];
      NewestIsContents(init, k);
      forall s: nat | Key(k, s) in LogTable(init) ensures s < r.sequence {
        LogTableMember(init, Key(k, s));
      }
      if r.key == k {
        assert Key(k, r.sequence) in LogTable(log);
        assert Newest(LogTable(log), k) == Some(Hit(r.sequence, r.val));
      } else {
        assert forall s: nat :: Key(k, s) in LogTable(log) <==> Key(k, s) in LogTable(init);
      }
    }
  }

  /** Versions at or below the last sequence of a prefix are the prefix's own. */
  lemma InPrefix(log: seq<Record>, n: nat, q: Key)
    requires Increasing(log) && n <= |log|
    requires forall i :: 0 <= i < |log| ==> 0 < log[i].sequence
    requires q in LogTable(log) && q.ts <= Last(log[..n])
    ensures q in LogTable(log[..n])
  {
    LogTableMember(log, q);
    LogTableMember(log[..n], q);
    var i :| 0 <= i < |log| && log[i].key == q.user && log[i].sequence == q.ts;
    assert i < n;
    assert log[..n][i] == log[i];
  }

  /** A read bounded by the last sequence of a prefix sees exactly that prefix. */
  lemma SnapshotIsPrefix(log: seq<Record>, n: nat, k: Bytes)
    requires Increasing(log) && n <= |log|
    requires forall i :: 0 <= i < |log| ==> 0 < log[i].sequence
    ensures GetAt(LogTable(log), k, At(Last(log[..n]))) == Newest(LogTable(log[..n]), k)
  {
    var all, part, top := LogTable(log), LogTable(log[..n]), Last(log[..n]);
    LogTablePrefix(log, n);
    forall s: nat | Key(k, s) in all && s <= top ensures Key(k, s) in part {
      InPrefix(log, n, Key(k, s));
    }
    forall s: nat | Key(k, s) in part ensures s <= top && Key(k, s) in all {
      BelowLast(log[..n], Key(k, s));
    }
    SameLookup(all, part, k, top);
  }

  /** A snapshot read is a lookup in the store as it stood after the prefix. */
  lemma SnapshotIsContents(log: seq<Record>, n: nat, k: Bytes)
    requires Increasing(log) && n <= |log|
    requires forall i :: 0 <= i < |log| ==> 0 < log[i].sequence
    ensures ValueOf(GetAt(LogTable(log), k, At(Last(log[..n])))) == Lookup(Contents(log[..n]), k)
  {
    SnapshotIsPrefix(log, n, k);
    NewestIsContents(log[..n], k);
  }

  lemma SameLookup(all: Table, part: Table, k: Bytes, top: nat)
    requires Part(part, all)
    requires forall s: nat :: Key(k, s) in all && s <= top ==> Key(k, s) in part
    requires forall s: nat :: Key(k, s) in part ==> s <= top
    ensures GetAt(all, k, At(top)) == Newest(part, k)
  {
    var a, p := GetAt(all, k, At(top)), Newest(part, k);
    if p.Some? {
      assert Key(k, p.value.sequence) in all && Within(p.value.sequence, At(top));
    }
  }

  lemma {:induction false} LogTablePrefix(log: seq<Record>, n: nat)
    requires Increasing(log) && n <= |log|
    ensures Part(LogTable(log[..n]), LogTable(log))
  {
    if n == |log| {
      assert log[..n] == log;
    } else {
      var init, r := log[..|log| - 1], log[|log| - 1];
      LogTablePrefix(init, n);
      assert init[..n] == log[..n];
      forall q | q in LogTable(init) ensures q != Key(r.key, r.sequence) {
        LogTableMember(init, q);
      }
    }
  }
}
