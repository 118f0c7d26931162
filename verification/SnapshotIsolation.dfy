/** Snapshot isolation stated directly over the log: a transaction reads its own
    writes, else the log as it stood at its begin; it may write a key only if nobody
    else wrote or is writing it since. The history of commits is kept alongside. */
module SnapshotIsolation {
  import opened ByteStrings
  import opened WriteAheadLog
  import opened Storage
  import opened EngineModel

  datatype Open = Open(begin: nat, writes: map<Bytes, Option<Bytes>>)

  /** A finished commit: its snapshot was `log[..begin]`, its records are `log[lo..hi]`. */
  datatype Commitment = Commitment(txn: nat, begin: nat, lo: nat, hi: nat, keys: set<Bytes>)

  datatype Model = Model(
    limits: Limits,
    log: seq<Record>,
    next: nat,
    txns: map<nat, Open>,
    nextTxn: nat,
    commits: seq<Commitment>)

  function Start(limits: Limits): Model {
    Model(limits, [], 1, map[], 1, [])
  }

  predicate WrittenSince(log: seq<Record>, n: nat, k: Bytes) {
    exists i :: n <= i < |log| && log[i].key == k
  }

  predicate Clashes(m: Model, t: nat, k: Bytes)
    requires t in m.txns
  {
    || (exists u :: u in m.txns && u != t && k in m.txns[u].writes)
    || WrittenSince(m.log, m.txns[t].begin, k)
  }

  function Records(muts: seq<(Bytes, Option<Bytes>)>, next: nat): seq<Record> {
    if muts == [] then [] else [Record(next, muts[0].0, muts[0].1)] + Records(muts[1..], next + 1)
  }

  lemma {:induction false} RecordsAt(muts: seq<(Bytes, Option<Bytes>)>, next: nat)
    ensures |Records(muts, next)| == |muts|
    ensures forall i :: 0 <= i < |muts| ==> Records(muts, next)[i] == Record(next + i, muts[i].0, muts[i].1)
  {
    if muts != [] {
      RecordsAt(muts[1..], next + 1);
    }
  }

  function Write(m: Model, k: Bytes, v: Option<Bytes>): (Model, Out) {
    if KeyOk(m.limits, k) && ValueOk(m.limits, v)
    then (m.(log := m.log + [Record(m.next, k, v)], next := m.next + 1), Wrote(m.next))
    else (m, Failed(InvalidArgument))
  }

  function Buffer(m: Model, t: nat, k: Bytes, v: Option<Bytes>): (Model, Out) {
    if !KeyOk(m.limits, k) || !ValueOk(m.limits, v) || t !in m.txns then (m, Failed(InvalidArgument))
    else if Clashes(m, t, k) then (m, Failed(TxnConflict))
    else (m.(txns := m.txns[t := m.txns[t].(writes := m.txns[t].writes[k := v])]), Done)
  }

  function Finish(m: Model, t: nat): (Model, Out) {
    if t !in m.txns then (m, Failed(InvalidArgument))
    else if exists k :: k in m.txns[t].writes && Clashes(m, t, k) then (m, Failed(TxnConflict))
    else
      var x := m.txns[t];
      var recs := Records(PairsOf(x.writes), m.next);
      var log := m.log + recs;
      var c := Commitment(t, x.begin, |m.log|, |log|, x.writes.Keys);
      (m.(log := log, next := m.next + |recs|, txns := m.txns - {t}, commits := m.commits + [c]),
       Wrote(Last(log)))
  }

  function Snapshot(m: Model, t: nat): map<Bytes, Bytes>
    requires t in m.txns && m.txns[t].begin <= |m.log|
  {
    Contents(m.log[..m.txns[t].begin])
  }

  /** Own writes first, else the log as it stood at begin. */
  function Get(m: Model, t: nat, k: Bytes): Out
    requires Bounded(m)
  {
    if t !in m.txns then Failed(InvalidArgument)
    else if k in m.txns[t].writes then Value(m.txns[t].writes[k])
    else Value(Lookup(Snapshot(m, t), k))
  }

  function Next(m: Model, op: Op): (Model, Out)
    requires Bounded(m)
  {
    match op
    case Put(k, v) => Write(m, k, Some(v))
    case Delete(k) => Write(m, k, None)
    case FlushOp => (m, Done)
    case CompactOp => (m, Done)
    case SyncSequence(min) => (if min > m.next then m.(next := min) else m, Done)
    case BeginOp =>
      (m.(txns := m.txns[m.nextTxn := Open(|m.log|, map[])], nextTxn := m.nextTxn + 1),
       Began(m.nextTxn, Last(m.log)))
    case TxnGet(t, k) => (m, Get(m, t, k))
    case TxnPut(t, k, v) => Buffer(m, t, k, Some(v))
    case TxnDelete(t, k) => Buffer(m, t, k, None)
    case Commit(t) => Finish(m, t)
    case Rollback(t) =>
      if t !in m.txns then (m, Failed(InvalidArgument)) else (m.(txns := m.txns - {t}), Done)
  }

  predicate Bounded(m: Model) {
    forall t :: t in m.txns ==> m.txns[t].begin <= |m.log|
  }

  // ---- What every run keeps ----

  ghost predicate TxnsOk(m: Model) {
    && Bounded(m)
    && (forall t :: t in m.txns ==> t < m.nextTxn)
    && (forall t, u :: t in m.txns && u in m.txns && t != u ==> m.txns[t].writes.Keys !! m.txns[u].writes.Keys)
  }

  /** A commit covers its own write set, and nobody wrote that set between its
      snapshot and its commit. */
  ghost predicate CommitOk(log: seq<Record>, c: Commitment) {
    && c.begin <= c.lo <= c.hi <= |log|
    && (forall i :: c.lo <= i < c.hi ==> log[i].key in c.keys)
    && (forall k :: k in c.keys ==> exists i :: c.lo <= i < c.hi && log[i].key == k)
    && (forall i :: c.begin <= i < c.lo ==> log[i].key !in c.keys)
  }

  /** The snapshot cut `n` does not split the commit `c`. */
  predicate Whole(n: nat, c: Commitment) {
    c.hi <= n || n <= c.lo
  }

  ghost predicate HistoryOk(m: Model) {
    && (forall i :: 0 <= i < |m.commits| ==> CommitOk(m.log, m.commits[i]))
    && (forall i, j :: 0 <= i < j < |m.commits| ==> m.commits[i].hi <= m.commits[j].lo)
    && (forall i, j :: 0 <= i < |m.commits| && 0 <= j < |m.commits| ==> Whole(m.commits[j].begin, m.commits[i]))
    && (forall t, i :: t in m.txns && 0 <= i < |m.commits| ==> Whole(m.txns[t].begin, m.commits[i]))
  }

  ghost predicate ModelOk(m: Model) {
    && Increasing(m.log) && Last(m.log) < m.next
    && (forall i :: 0 <= i < |m.log| ==> 0 < m.log[i].sequence)
    && TxnsOk(m) && HistoryOk(m)
  }

  lemma RecordsIncrease(log: seq<Record>, muts: seq<(Bytes, Option<Bytes>)>, next: nat)
    requires Increasing(log) && Last(log) < next
    requires forall i :: 0 <= i < |log| ==> 0 < log[i].sequence
    ensures var l := log + Records(muts, next);
            Increasing(l) && Last(l) < next + |muts| && forall i :: 0 <= i < |l| ==> 0 < l[i].sequence
  {
    RecordsAt(muts, next);
    forall i | 0 <= i < |log| ensures log[i].sequence <= Last(log) {
    }
  }

  lemma GrowKeepsHistory(m: Model, recs: seq<Record>)
    requires HistoryOk(m)
    ensures HistoryOk(m.(log := m.log + recs))
  {
    var log := m.log + recs;
    forall i | 0 <= i < |m.commits| ensures CommitOk(log, m.commits[i]) {
      var c := m.commits[i];
      assert CommitOk(m.log, c);
      assert forall x :: 0 <= x < |m.log| ==> log[x] == m.log[x];
      forall k | k in c.keys ensures exists x :: c.lo <= x < c.hi && log[x].key == k {
        var x :| c.lo <= x < c.hi && m.log[x].key == k;
        assert log[x].key == k;
      }
    }
  }

  lemma FinishCommitOk(m: Model, t: nat)
    requires TxnsOk(m) && t in m.txns
    requires forall k :: k in m.txns[t].writes ==> !Clashes(m, t, k)
    ensures var log := m.log + Records(PairsOf(m.txns[t].writes), m.next);
            CommitOk(log, Commitment(t, m.txns[t].begin, |m.log|, |log|, m.txns[t].writes.Keys))
  {
    var x := m.txns[t];
    var muts := PairsOf(x.writes);
    var recs := Records(muts, m.next);
    var log := m.log + recs;
    RecordsAt(muts, m.next);
    forall k | k in x.writes.Keys ensures exists i :: |m.log| <= i < |log| && log[i].key == k {
      var j := AmongPairs(x.writes, k);
      assert log[|m.log| + j].key == k;
    }
    forall i | x.begin <= i < |m.log| ensures log[i].key !in x.writes.Keys {
      if m.log[i].key in x.writes {
        assert WrittenSince(m.log, x.begin, m.log[i].key);
      }
    }
  }

  lemma AmongPairs(writes: map<Bytes, Option<Bytes>>, k: Bytes) returns (j: nat)
    requires k in writes
    ensures j < |PairsOf(writes)| && PairsOf(writes)[j].0 == k
  {
    assert k in Sorted(writes.Keys);
    j :| 0 <= j < |Sorted(writes.Keys)| && Sorted(writes.Keys)[j] == k;
  }

  lemma AddCommit(g: Model, t: nat, c: Commitment)
    requires HistoryOk(g) && t in g.txns && CommitOk(g.log, c) && c.begin == g.txns[t].begin
    requires forall u :: u in g.txns ==> g.txns[u].begin <= c.lo
    requires forall i :: 0 <= i < |g.commits| ==> g.commits[i].hi <= c.lo
    ensures HistoryOk(g.(txns := g.txns - {t}, commits := g.commits + [c]))
  {
    var cs := g.commits + [c];
    assert forall i :: 0 <= i < |g.commits| ==> CommitOk(g.log, g.commits[i]);
    assert forall i :: 0 <= i < |cs| ==> cs[i] == if i < |g.commits| then g.commits[i] else c;
  }

  lemma FinishHistory(m: Model, t: nat)
    requires TxnsOk(m) && HistoryOk(m) && t in m.txns
    requires forall k :: k in m.txns[t].writes ==> !Clashes(m, t, k)
    ensures HistoryOk(Finish(m, t).0)
  {
    var x := m.txns[t];
    var recs := Records(PairsOf(x.writes), m.next);
    RecordsAt(PairsOf(x.writes), m.next);
    var g := m.(log := m.log + recs);
    GrowKeepsHistory(m, recs);
    FinishCommitOk(m, t);
    assert forall i :: 0 <= i < |m.commits| ==> CommitOk(m.log, m.commits[i]);
    AddCommit(g, t, Commitment(t, x.begin, |m.log|, |g.log|, x.writes.Keys));
  }

  lemma FinishKeeps(m: Model, t: nat)
    requires ModelOk(m)
    ensures ModelOk(Finish(m, t).0)
  {
    if t in m.txns && forall k :: k in m.txns[t].writes ==> !Clashes(m, t, k) {
      FinishHistory(m, t);
      RecordsIncrease(m.log, PairsOf(m.txns[t].writes), m.next);
      RecordsAt(PairsOf(m.txns[t].writes), m.next);
    }
  }

  lemma WriteKeeps(m: Model, k: Bytes, v: Option<Bytes>)
    requires ModelOk(m)
    ensures ModelOk(Write(m, k, v).0)
  {
    RecordsIncrease(m.log, [(k, v)], m.next);
    assert Records([(k, v)], m.next) == [Record(m.next, k, v)];
    GrowKeepsHistory(m, [Record(m.next, k, v)]);
  }

  lemma BufferKeeps(m: Model, t: nat, k: Bytes, v: Option<Bytes>)
    requires ModelOk(m)
    ensures ModelOk(Buffer(m, t, k, v).0)
  {
  }

  lemma NextKeeps(m: Model, op: Op)
    requires ModelOk(m)
    ensures ModelOk(Next(m, op).0)
  {
    match op
    case Put(k, v) => WriteKeeps(m, k, Some(v));
    case Delete(k) => WriteKeeps(m, k, None);
    case TxnPut(t, k, v) => BufferKeeps(m, t, k, Some(v));
    case TxnDelete(t, k) => BufferKeeps(m, t, k, None);
    case Commit(t) => FinishKeeps(m, t);
    case FlushOp =>
    case CompactOp =>
    case SyncSequence(min) =>
    case TxnGet(t, k) =>
    case BeginOp => BeginKeeps(m);
    case Rollback(t) =>
  }

  lemma BeginKeeps(m: Model)
    requires ModelOk(m)
    ensures ModelOk(Next(m, BeginOp).0)
  {
  }

  // ---- Runs ----

  ghost function RunModel(m: Model, ops: seq<Op>): (Model, seq<Out>)
    requires ModelOk(m)
    decreases |ops|
  {
    if ops == [] then (m, []) else
      NextKeeps(m, ops[0]);
      var (m1, out) := Next(m, ops[0]);
      var (m2, outs) := RunModel(m1, ops[1..]);
      (m2, [out] + outs)
  }

  lemma {:induction false} RunKeeps(m: Model, ops: seq<Op>)
    requires ModelOk(m)
    ensures ModelOk(RunModel(m, ops).0)
    decreases |ops|
  {
    if ops != [] {
      NextKeeps(m, ops[0]);
      RunKeeps(Next(m, ops[0]).0, ops[1..]);
    }
  }

  /** In every run, of two commits either the later one started from a snapshot that
      contains the earlier one completely, or they wrote disjoint keys. */
  lemma NoLostUpdate(limits: Limits, ops: seq<Op>, i: nat, j: nat)
    requires i < j < |RunModel(Start(limits), ops).0.commits|
    ensures var cs := RunModel(Start(limits), ops).0.commits;
            cs[i].hi <= cs[j].begin || cs[i].keys !! cs[j].keys
  {
    RunKeeps(Start(limits), ops);
    var m := RunModel(Start(limits), ops).0;
    var a, b := m.commits[i], m.commits[j];
    assert CommitOk(m.log, a) && CommitOk(m.log, b) && Whole(b.begin, a);
    if a.hi > b.begin {
      forall k | k in a.keys ensures k !in b.keys {
        var x :| a.lo <= x < a.hi && m.log[x].key == k;
      }
    }
  }

  /** No key a transaction commits has a version, by anyone, between its snapshot and
      its commit. */
  lemma NoVersionSinceSnapshot(limits: Limits, ops: seq<Op>, i: nat, x: nat)
    requires i < |RunModel(Start(limits), ops).0.commits|
    requires var c := RunModel(Start(limits), ops).0.commits[i]; c.begin <= x < c.lo
    ensures var m := RunModel(Start(limits), ops).0;
            x < |m.log| && m.log[x].key !in m.commits[i].keys
  {
    RunKeeps(Start(limits), ops);
    assert CommitOk(RunModel(Start(limits), ops).0.log, RunModel(Start(limits), ops).0.commits[i]);
  }

  /** A snapshot contains every record of a commit or none of them. */
  lemma CommitsAreAtomic(limits: Limits, ops: seq<Op>, t: nat, i: nat)
    requires t in RunModel(Start(limits), ops).0.txns && i < |RunModel(Start(limits), ops).0.commits|
    ensures var m := RunModel(Start(limits), ops).0;
            Whole(m.txns[t].begin, m.commits[i])
  {
    RunKeeps(Start(limits), ops);
  }

  predicate StagesKey(op: Op, t: nat, k: Bytes) {
    (op.TxnPut? || op.TxnDelete?) && op.t == t && op.k == k
  }

  lemma StepKeepsSnapshot(m: Model, op: Op, t: nat, k: Bytes)
    requires ModelOk(m) && t in m.txns && t in Next(m, op).0.txns && !StagesKey(op, t, k)
    ensures var m1 := Next(m, op).0;
            && m1.txns[t].begin == m.txns[t].begin && m.log <= m1.log
            && (k in m1.txns[t].writes <==> k in m.txns[t].writes)
            && (k in m.txns[t].writes ==> m1.txns[t].writes[k] == m.txns[t].writes[k])
  {
  }

  lemma StepKeepsRead(m: Model, op: Op, t: nat, k: Bytes)
    requires ModelOk(m) && t in m.txns && t in Next(m, op).0.txns && !StagesKey(op, t, k)
    ensures ModelOk(Next(m, op).0) && Get(Next(m, op).0, t, k) == Get(m, t, k)
  {
    NextKeeps(m, op);
    StepKeepsSnapshot(m, op, t, k);
    var m1, n := Next(m, op).0, m.txns[t].begin;
    assert m1.log[..n] == m.log[..n];
  }

  /** While a transaction stays open, a key it does not write reads the same. */
  lemma {:induction false} RepeatableRead(m: Model, ops: seq<Op>, t: nat, k: Bytes)
    requires ModelOk(m) && t in m.txns && t in RunModel(m, ops).0.txns
    requires forall i :: 0 <= i < |ops| ==> !StagesKey(ops[i], t, k)
    ensures ModelOk(RunModel(m, ops).0) && Get(RunModel(m, ops).0, t, k) == Get(m, t, k)
    decreases |ops|
  {
    RunKeeps(m, ops);
    if ops != [] {
      NextKeeps(m, ops[0]);
      var m1 := Next(m, ops[0]).0;
      assert t in m1.txns by {
        if t !in m1.txns {
          ClosedStaysClosed(m1, ops[1..], t);
        }
      }
      StepKeepsRead(m, ops[0], t, k);
      RepeatableRead(m1, ops[1..], t, k);
    }
  }

  /** Transaction numbers are never reused. */
  lemma {:induction false} ClosedStaysClosed(m: Model, ops: seq<Op>, t: nat)
    requires ModelOk(m) && t < m.nextTxn && t !in m.txns
    ensures t !in RunModel(m, ops).0.txns
    decreases |ops|
  {
    if ops != [] {
      NextKeeps(m, ops[0]);
      ClosedStaysClosed(Next(m, ops[0]).0, ops[1..], t);
    }
  }
}
