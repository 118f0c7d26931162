/** The layered engine with its intent table, run with watermark 0, answers every
    operation exactly as the reference snapshot-isolation machine does. */
module EngineRefinement {
  import opened ByteStrings
  import opened Versions
  import opened WriteAheadLog
  import opened Storage
  import opened EngineModel
  import SI = SnapshotIsolation

  ghost predicate IntentsMatch(intents: map<Bytes, Intent>, txns: map<nat, SI.Open>) {
    && (forall t, k :: t in txns && k in txns[t].writes ==> k in intents && intents[k] == Intent(t, txns[t].writes[k]))
    && (forall k :: k in intents ==> intents[k].txn in txns && k in txns[intents[k].txn].writes)
  }

  ghost predicate TxnsMatch(e: Engine, m: SI.Model) {
    && e.txns.Keys == m.txns.Keys
    && (forall t :: t in m.txns ==>
          && m.txns[t].begin <= |m.log|
          && e.txns[t] == Meta(Last(m.log[..m.txns[t].begin]), m.txns[t].writes.Keys))
  }

  ghost predicate StoreMatches(st: Store, m: SI.Model) {
    && Complete(st) && st.watermark == 0
    && m.limits == st.limits && m.log == st.wal && m.next == st.next
  }

  ghost predicate Matches(e: Engine, m: SI.Model) {
    && StoreMatches(e.store, m)
    && m.nextTxn == e.nextTxn && TxnsMatch(e, m) && IntentsMatch(e.intents, m.txns)
  }

  /** The same answer, and states in correspondence. */
  ghost predicate InStep(a: (Engine, Out), b: (SI.Model, Out)) {
    a.1 == b.1 && Matches(a.0, b.0)
  }

  lemma Carry(a: (Engine, Out), b: (SI.Model, Out), c: (Engine, Out), d: (SI.Model, Out))
    requires InStep(a, b) && a == c && b == d
    ensures InStep(c, d)
  {
  }

  // ---- Pieces of an operation ----

  lemma WriteRawFields(st: Store, k: Bytes, v: Option<Bytes>)
    ensures var w := WriteRaw(st, k, v);
            && w.wal == st.wal + [Record(st.next, k, v)] && w.next == st.next + 1
            && w.limits == st.limits && w.watermark == st.watermark
  {
  }

  lemma {:induction false} WriteAllLog(st: Store, muts: seq<(Bytes, Option<Bytes>)>)
    ensures WriteAll(st, muts).wal == st.wal + SI.Records(muts, st.next)
    decreases |muts|
  {
    if muts != [] {
      var w, r := WriteRaw(st, muts[0].0, muts[0].1), Record(st.next, muts[0].0, muts[0].1);
      WriteRawFields(st, muts[0].0, muts[0].1);
      WriteAllLog(w, muts[1..]);
      assert st.wal + ([r] + SI.Records(muts[1..], st.next + 1)) == w.wal + SI.Records(muts[1..], w.next);
    }
  }

  lemma {:induction false} WriteAllFields(st: Store, muts: seq<(Bytes, Option<Bytes>)>)
    ensures WriteAll(st, muts).next == st.next + |muts|
    ensures WriteAll(st, muts).limits == st.limits && WriteAll(st, muts).watermark == st.watermark
    decreases |muts|
  {
    if muts != [] {
      WriteRawFields(st, muts[0].0, muts[0].1);
      WriteAllFields(WriteRaw(st, muts[0].0, muts[0].1), muts[1..]);
    }
  }

  lemma {:induction false} WriteAllKeeps(st: Store, muts: seq<(Bytes, Option<Bytes>)>)
    requires Complete(st)
    ensures Complete(WriteAll(st, muts))
    decreases |muts|
  {
    if muts != [] {
      WriteRawKeeps(st, muts[0].0, muts[0].1);
      WriteAllKeeps(WriteRaw(st, muts[0].0, muts[0].1), muts[1..]);
    }
  }

  /** Growing the log leaves earlier snapshots as they were. */
  lemma GrowKeepsTxns(e: Engine, m: SI.Model, recs: seq<Record>)
    requires TxnsMatch(e, m)
    ensures TxnsMatch(e, m.(log := m.log + recs))
  {
    forall t | t in m.txns ensures (m.log + recs)[..m.txns[t].begin] == m.log[..m.txns[t].begin] {
    }
  }

  /** A key's newest logged sequence exceeds a snapshot exactly when it was written since. */
  lemma NewerThanSnapshot(log: seq<Record>, n: nat, k: Bytes)
    requires Increasing(log) && n <= |log|
    requires forall i :: 0 <= i < |log| ==> 0 < log[i].sequence
    ensures var h := Newest(LogTable(log), k);
            (h.Some? && h.value.sequence > Last(log[..n])) <==> SI.WrittenSince(log, n, k)
  {
    var h := Newest(LogTable(log), k);
    if h.Some? && h.value.sequence > Last(log[..n]) {
      LoggedBehind(log, n, Key(k, h.value.sequence));
    }
    if SI.WrittenSince(log, n, k) {
      var i :| n <= i < |log| && log[i].key == k;
      NewerBehind(log, n, i);
    }
  }

  lemma LoggedBehind(log: seq<Record>, n: nat, q: Key)
    requires Increasing(log) && n <= |log| && q in LogTable(log) && q.ts > Last(log[..n])
    ensures SI.WrittenSince(log, n, q.user)
  {
    LogTableMember(log, q);
    var i :| 0 <= i < |log| && log[i].key == q.user && log[i].sequence == q.ts;
    assert n <= i;
  }

  lemma NewerBehind(log: seq<Record>, n: nat, i: nat)
    requires Increasing(log) && n <= i < |log| && 0 < log[i].sequence
    ensures Key(log[i].key, log[i].sequence) in LogTable(log) && Last(log[..n]) < log[i].sequence
  {
    LogTableMember(log, Key(log[i].key, log[i].sequence));
    if n > 0 {
      assert log[n - 1].sequence < log[i].sequence;
    }
  }

  lemma ConflictRefines(e: Engine, m: SI.Model, t: nat, k: Bytes)
    requires Matches(e, m) && t in m.txns
    ensures Conflicts(e, t, k, e.txns[t].snapshot) <==> SI.Clashes(m, t, k)
  {
    ReadRefinesLog(e.store, k, Latest);
    NewerThanSnapshot(m.log, m.txns[t].begin, k);
  }

  lemma {:induction false} HeldRefines(e: Engine, m: SI.Model, t: nat, keys: seq<Bytes>)
    requires Matches(e, m) && t in m.txns && forall i :: 0 <= i < |keys| ==> keys[i] in m.txns[t].writes
    ensures Held(e, t, keys) ==
            seq(|keys|, i requires 0 <= i < |keys| => (keys[i], m.txns[t].writes[keys[i]]))
  {
    if keys != [] {
      HeldRefines(e, m, t, keys[1..]);
    }
  }

  lemma MutationsRefine(e: Engine, m: SI.Model, t: nat)
    requires Matches(e, m) && t in m.txns
    ensures Mutations(e, t) == PairsOf(m.txns[t].writes)
  {
    var keys := Sorted(m.txns[t].writes.Keys);
    assert forall i :: 0 <= i < |keys| ==> keys[i] in keys;
    HeldRefines(e, m, t, keys);
  }

  lemma DropIntents(intents: map<Bytes, Intent>, txns: map<nat, SI.Open>, t: nat)
    requires IntentsMatch(intents, txns) && t in txns
    ensures IntentsMatch(map k | k in intents && !(k in txns[t].writes.Keys && intents[k].txn == t) :: intents[k], txns - {t})
  {
  }

  lemma DropTxns(e: Engine, m: SI.Model, t: nat)
    requires TxnsMatch(e, m) && t in m.txns
    ensures TxnsMatch(Drop(e, t), m.(txns := m.txns - {t}))
  {
  }

  lemma StageIntents(e: Engine, m: SI.Model, t: nat, k: Bytes, v: Option<Bytes>)
    requires TxnsMatch(e, m) && IntentsMatch(e.intents, m.txns) && t in m.txns && !SI.Clashes(m, t, k)
    ensures var m1 := m.(txns := m.txns[t := m.txns[t].(writes := m.txns[t].writes[k := v])]);
            TxnsMatch(Stage(e, t, k, v), m1) && IntentsMatch(Stage(e, t, k, v).intents, m1.txns)
  {
  }

  // ---- Operations ----

  lemma WriteStep(e: Engine, m: SI.Model, k: Bytes, v: Option<Bytes>)
    requires Matches(e, m)
    ensures InStep(WriteOp(e, k, v), SI.Write(m, k, v))
  {
    if KeyOk(m.limits, k) && ValueOk(m.limits, v) {
      WriteRawFields(e.store, k, v);
      WriteRawKeeps(e.store, k, v);
      GrowKeepsTxns(e, m, [Record(m.next, k, v)]);
    }
  }

  lemma StageStep(e: Engine, m: SI.Model, t: nat, k: Bytes, v: Option<Bytes>)
    requires Matches(e, m)
    ensures InStep(StageOp(e, t, k, v), SI.Buffer(m, t, k, v))
  {
    if t in m.txns {
      ConflictRefines(e, m, t, k);
      if !SI.Clashes(m, t, k) {
        StageIntents(e, m, t, k, v);
      }
    }
  }

  lemma CommitConflictRefines(e: Engine, m: SI.Model, t: nat)
    requires Matches(e, m) && t in m.txns
    ensures CommitConflicts(e, t) <==> exists k :: k in m.txns[t].writes && SI.Clashes(m, t, k)
  {
    forall k | k in m.txns[t].writes ensures Conflicts(e, t, k, e.txns[t].snapshot) <==> SI.Clashes(m, t, k) {
      ConflictRefines(e, m, t, k);
    }
    if CommitConflicts(e, t) {
      var k :| k in e.txns[t].keys && Conflicts(e, t, k, e.txns[t].snapshot);
      assert k in m.txns[t].writes && SI.Clashes(m, t, k);
    }
  }

  lemma WriteAllMatches(st: Store, m: SI.Model, muts: seq<(Bytes, Option<Bytes>)>)
    requires StoreMatches(st, m)
    ensures StoreMatches(WriteAll(st, muts), m.(log := m.log + SI.Records(muts, m.next), next := m.next + |muts|))
  {
    WriteAllLog(st, muts);
    WriteAllFields(st, muts);
    WriteAllKeeps(st, muts);
  }

  lemma CommitSucceeds(e: Engine, m: SI.Model, t: nat)
    requires Matches(e, m) && SI.ModelOk(m) && t in m.txns && !CommitConflicts(e, t)
    requires forall k :: k in m.txns[t].writes ==> !SI.Clashes(m, t, k)
    ensures InStep(CommitOp(e, t), SI.Finish(m, t))
  {
    var muts := PairsOf(m.txns[t].writes);
    MutationsRefine(e, m, t);
    SI.RecordsAt(muts, m.next);
    WriteAllMatches(e.store, m, muts);
    DropTxns(e, m, t);
    DropIntents(e.intents, m.txns, t);
    GrowKeepsTxns(Drop(e, t), m.(txns := m.txns - {t}), SI.Records(muts, m.next));
  }

  lemma CommitStep(e: Engine, m: SI.Model, t: nat)
    requires Matches(e, m) && SI.ModelOk(m)
    ensures InStep(CommitOp(e, t), SI.Finish(m, t))
  {
    if t in m.txns {
      CommitConflictRefines(e, m, t);
      if !CommitConflicts(e, t) {
        CommitSucceeds(e, m, t);
      }
    }
  }

  lemma SnapshotRead(st: Store, log: seq<Record>, begin: nat, k: Bytes)
    requires Complete(st) && st.wal == log && begin <= |log|
    ensures Read(st, k, At(Last(log[..begin]))) == Lookup(Contents(log[..begin]), k)
  {
    ReadRefinesLog(st, k, At(Last(log[..begin])));
    SnapshotIsContents(log, begin, k);
  }

  lemma ReadStep(e: Engine, m: SI.Model, t: nat, k: Bytes)
    requires Matches(e, m) && SI.ModelOk(m)
    ensures GetOp(e, t, k) == SI.Get(m, t, k)
  {
    if t in m.txns {
      OwnWrites(e.intents, m.txns, t, k);
      if k !in m.txns[t].writes {
        SnapshotRead(e.store, m.log, m.txns[t].begin, k);
      }
    }
  }

  /** A transaction holds an intent on exactly the keys it has written. */
  lemma OwnWrites(intents: map<Bytes, Intent>, txns: map<nat, SI.Open>, t: nat, k: Bytes)
    requires IntentsMatch(intents, txns) && t in txns
    ensures (k in intents && intents[k].txn == t) <==> k in txns[t].writes
    ensures k in txns[t].writes ==> intents[k].val == txns[t].writes[k]
  {
  }

  lemma FlushStep(e: Engine, m: SI.Model)
    requires Matches(e, m)
    ensures Matches(e.(store := Flush(e.store)), m)
  {
    FlushKeeps(e.store);
  }

  lemma CompactStep(e: Engine, m: SI.Model)
    requires Matches(e, m)
    ensures Matches(e.(store := Compact(e.store)), m)
  {
    CompactKeeps(e.store);
  }

  lemma BeginTxns(e: Engine, m: SI.Model)
    requires TxnsMatch(e, m) && e.store.last == Last(m.log) && e.nextTxn == m.nextTxn && m.nextTxn !in m.txns
    ensures TxnsMatch(Begin(e), m.(txns := m.txns[m.nextTxn := SI.Open(|m.log|, map[])], nextTxn := m.nextTxn + 1))
  {
    assert m.log[..|m.log|] == m.log;
  }

  lemma BeginIntents(intents: map<Bytes, Intent>, txns: map<nat, SI.Open>, t: nat, begin: nat)
    requires IntentsMatch(intents, txns) && t !in txns
    ensures IntentsMatch(intents, txns[t := SI.Open(begin, map[])])
  {
  }

  lemma BeginStep(e: Engine, m: SI.Model)
    requires Matches(e, m) && SI.ModelOk(m)
    ensures Step(e, BeginOp).1 == SI.Next(m, BeginOp).1 && Matches(Step(e, BeginOp).0, SI.Next(m, BeginOp).0)
  {
    BeginTxns(e, m);
    BeginIntents(e.intents, m.txns, m.nextTxn, |m.log|);
  }

  lemma SyncStep(e: Engine, m: SI.Model, min: nat)
    requires Matches(e, m) && SI.ModelOk(m)
    ensures Matches(e.(store := EnsureMinSequence(e.store, min)), SI.Next(m, SyncSequence(min)).0)
  {
    SyncKeeps(e.store, min);
  }

  lemma RollbackStep(e: Engine, m: SI.Model, t: nat)
    requires Matches(e, m) && SI.ModelOk(m)
    ensures Step(e, Rollback(t)).1 == SI.Next(m, Rollback(t)).1
    ensures Matches(Step(e, Rollback(t)).0, SI.Next(m, Rollback(t)).0)
  {
    if t in m.txns {
      DropTxns(e, m, t);
      DropIntents(e.intents, m.txns, t);
      assert e.txns[t].keys == m.txns[t].writes.Keys;
    }
  }

  predicate IsKeyOp(op: Op) {
    op.TxnGet? || op.TxnPut? || op.TxnDelete?
  }

  predicate IsEndOp(op: Op) {
    op.Commit? || op.Rollback?
  }

  lemma CommitRefines(e: Engine, m: SI.Model, t: nat)
    requires Matches(e, m) && SI.ModelOk(m)
    ensures InStep(Step(e, Commit(t)), SI.Next(m, Commit(t)))
  {
    CommitStep(e, m, t);
    Carry(CommitOp(e, t), SI.Finish(m, t), Step(e, Commit(t)), SI.Next(m, Commit(t)));
  }

  lemma GetRefines(e: Engine, m: SI.Model, t: nat, k: Bytes)
    requires Matches(e, m) && SI.ModelOk(m)
    ensures InStep(Step(e, TxnGet(t, k)), SI.Next(m, TxnGet(t, k)))
  {
    ReadStep(e, m, t, k);
    Carry((e, GetOp(e, t, k)), (m, SI.Get(m, t, k)), Step(e, TxnGet(t, k)), SI.Next(m, TxnGet(t, k)));
  }

  lemma PutRefines(e: Engine, m: SI.Model, t: nat, k: Bytes, v: Bytes)
    requires Matches(e, m) && SI.ModelOk(m)
    ensures InStep(Step(e, TxnPut(t, k, v)), SI.Next(m, TxnPut(t, k, v)))
  {
    StageStep(e, m, t, k, Some(v));
    StagesPut(e, m, t, k, v);
    Carry(StageOp(e, t, k, Some(v)), SI.Buffer(m, t, k, Some(v)), Step(e, TxnPut(t, k, v)), SI.Next(m, TxnPut(t, k, v)));
  }

  lemma DeleteRefines(e: Engine, m: SI.Model, t: nat, k: Bytes)
    requires Matches(e, m) && SI.ModelOk(m)
    ensures InStep(Step(e, TxnDelete(t, k)), SI.Next(m, TxnDelete(t, k)))
  {
    StageStep(e, m, t, k, None);
    StagesDelete(e, m, t, k);
    Carry(StageOp(e, t, k, None), SI.Buffer(m, t, k, None), Step(e, TxnDelete(t, k)), SI.Next(m, TxnDelete(t, k)));
  }

  lemma StagesDelete(e: Engine, m: SI.Model, t: nat, k: Bytes)
    requires SI.Bounded(m)
    ensures Step(e, TxnDelete(t, k)) == StageOp(e, t, k, None) && SI.Next(m, TxnDelete(t, k)) == SI.Buffer(m, t, k, None)
  {
  }

  lemma StagesPut(e: Engine, m: SI.Model, t: nat, k: Bytes, v: Bytes)
    requires SI.Bounded(m)
    ensures Step(e, TxnPut(t, k, v)) == StageOp(e, t, k, Some(v)) && SI.Next(m, TxnPut(t, k, v)) == SI.Buffer(m, t, k, Some(v))
  {
  }

  lemma TxnOpRefines(e: Engine, m: SI.Model, op: Op)
    requires Matches(e, m) && SI.ModelOk(m) && (IsKeyOp(op) || IsEndOp(op))
    ensures InStep(Step(e, op), SI.Next(m, op))
  {
    match op
    case TxnGet(t, k) => GetRefines(e, m, t, k);
    case TxnPut(t, k, v) => PutRefines(e, m, t, k, v);
    case TxnDelete(t, k) => DeleteRefines(e, m, t, k);
    case Commit(t) => CommitRefines(e, m, t);
    case Rollback(t) => RollbackStep(e, m, t);
  }

  lemma StoreOpRefines(e: Engine, m: SI.Model, op: Op)
    requires Matches(e, m) && SI.ModelOk(m) && !IsKeyOp(op) && !IsEndOp(op)
    ensures InStep(Step(e, op), SI.Next(m, op))
  {
    match op
    case Put(k, v) => PlainRefines(e, m, k, Some(v), op);
    case Delete(k) => PlainRefines(e, m, k, None, op);
    case FlushOp => FlushStep(e, m);
    case CompactOp => CompactStep(e, m);
    case SyncSequence(min) => SyncStep(e, m, min);
    case BeginOp => BeginStep(e, m);
  }

  lemma PlainRefines(e: Engine, m: SI.Model, k: Bytes, v: Option<Bytes>, op: Op)
    requires Matches(e, m) && SI.ModelOk(m) && op == if v.Some? then Put(k, v.value) else Delete(k)
    ensures InStep(Step(e, op), SI.Next(m, op))
  {
    WriteStep(e, m, k, v);
    Carry(WriteOp(e, k, v), SI.Write(m, k, v), Step(e, op), SI.Next(m, op));
  }

  lemma StepRefines(e: Engine, m: SI.Model, op: Op)
    requires Matches(e, m) && SI.ModelOk(m)
    ensures Step(e, op).1 == SI.Next(m, op).1 && Matches(Step(e, op).0, SI.Next(m, op).0)
  {
    if IsKeyOp(op) || IsEndOp(op) {
      TxnOpRefines(e, m, op);
    } else {
      StoreOpRefines(e, m, op);
    }
  }

  // ---- Runs ----

  function RunEngine(e: Engine, ops: seq<Op>): (Engine, seq<Out>)
    decreases |ops|
  {
    if ops == [] then (e, []) else
      var (e1, out) := Step(e, ops[0]);
      var (e2, outs) := RunEngine(e1, ops[1..]);
      (e2, [out] + outs)
  }

  lemma {:induction false} RunRefines(e: Engine, m: SI.Model, ops: seq<Op>)
    requires Matches(e, m) && SI.ModelOk(m)
    ensures RunEngine(e, ops).1 == SI.RunModel(m, ops).1
    ensures Matches(RunEngine(e, ops).0, SI.RunModel(m, ops).0)
    decreases |ops|
  {
    if ops != [] {
      StepRefines(e, m, ops[0]);
      SI.NextKeeps(m, ops[0]);
      RunRefines(Step(e, ops[0]).0, SI.Next(m, ops[0]).0, ops[1..]);
    }
  }

  /** Every history of the engine is a snapshot-isolation history: over any
      interleaving of transactions, plain writes, flushes, compactions and sequence
      jumps, each answer is the reference machine's. */
  lemma EngineIsSnapshotIsolated(limits: Limits, ops: seq<Op>)
    ensures RunEngine(FreshEngine(limits), ops).1 == SI.RunModel(SI.Start(limits), ops).1
    ensures Matches(RunEngine(FreshEngine(limits), ops).0, SI.RunModel(SI.Start(limits), ops).0)
  {
    var e := FreshEngine(limits);
    assert DataOf(e.store.tables) == [] && HeldTable(e.store) == map[];
    RunRefines(e, SI.Start(limits), ops);
  }
}
