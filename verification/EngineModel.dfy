/** The engine's operations: plain writes, maintenance, and snapshot transactions
    with in-memory write intents over the store. */
module EngineModel {
  import opened ByteStrings
  import opened Versions
  import opened WriteAheadLog
  import opened Storage

  datatype Intent = Intent(txn: nat, val: Option<Bytes>)
  datatype Meta = Meta(snapshot: nat, keys: set<Bytes>)

  datatype Error = InvalidArgument | TxnConflict

  /** Intent tables: at most one holder per key. */
  datatype Engine = Engine(store: Store, intents: map<Bytes, Intent>, txns: map<nat, Meta>, nextTxn: nat)

  function FreshEngine(limits: Limits): Engine {
    Engine(Fresh(limits), map[], map[], 1)
  }

  // ---- Transactions ----

  function Begin(e: Engine): Engine {
    e.(txns := e.txns[e.nextTxn := Meta(e.store.last, {})], nextTxn := e.nextTxn + 1)
  }

  predicate Conflicts(e: Engine, t: nat, k: Bytes, snapshot: nat) {
    || (k in e.intents && e.intents[k].txn != t)
    || (var h := Probe(e.store, k, Latest); h.Some? && h.value.sequence > snapshot)
  }

  function Stage(e: Engine, t: nat, k: Bytes, v: Option<Bytes>): Engine
    requires t in e.txns
  {
    e.(intents := e.intents[k := Intent(t, v)],
       txns := e.txns[t := e.txns[t].(keys := e.txns[t].keys + {k})])
  }

  predicate CommitConflicts(e: Engine, t: nat)
    requires t in e.txns
  {
    exists k :: k in e.txns[t].keys && Conflicts(e, t, k, e.txns[t].snapshot)
  }

  function HeldAt(e: Engine, t: nat, k: Bytes): seq<(Bytes, Option<Bytes>)> {
    if k in e.intents && e.intents[k].txn == t then [(k, e.intents[k].val)] else []
  }

  function Held(e: Engine, t: nat, keys: seq<Bytes>): seq<(Bytes, Option<Bytes>)> {
    if keys == [] then [] else HeldAt(e, t, keys[0]) + Held(e, t, keys[1..])
  }

  /** Staged writes of `t`, in key order. */
  function Mutations(e: Engine, t: nat): seq<(Bytes, Option<Bytes>)>
    requires t in e.txns
  {
    Held(e, t, Sorted(e.txns[t].keys))
  }

  /** Remove the transaction and the intents it still holds. */
  function Drop(e: Engine, t: nat): Engine
    requires t in e.txns
  {
    e.(txns := e.txns - {t},
       intents := map k | k in e.intents && !(k in e.txns[t].keys && e.intents[k].txn == t) :: e.intents[k])
  }

  // ---- One operation ----

  datatype Op =
    | Put(k: Bytes, v: Bytes)
    | Delete(k: Bytes)
    | FlushOp
    | CompactOp
    | SyncSequence(min: nat)
    | BeginOp
    | TxnGet(t: nat, k: Bytes)
    | TxnPut(t: nat, k: Bytes, v: Bytes)
    | TxnDelete(t: nat, k: Bytes)
    | Commit(t: nat)
    | Rollback(t: nat)

  datatype Out =
    | Done
    | Wrote(sequence: nat)
    | Began(txn: nat, snapshot: nat)
    | Value(val: Option<Bytes>)
    | Failed(error: Error)

  function WriteOp(e: Engine, k: Bytes, v: Option<Bytes>): (Engine, Out) {
    if KeyOk(e.store.limits, k) && ValueOk(e.store.limits, v) then (e.(store := WriteRaw(e.store, k, v)), Wrote(e.store.next))
    else (e, Failed(InvalidArgument))
  }

  function StageOp(e: Engine, t: nat, k: Bytes, v: Option<Bytes>): (Engine, Out) {
    if !KeyOk(e.store.limits, k) || !ValueOk(e.store.limits, v) || t !in e.txns then (e, Failed(InvalidArgument))
    else if Conflicts(e, t, k, e.txns[t].snapshot) then (e, Failed(TxnConflict))
    else (Stage(e, t, k, v), Done)
  }

  function CommitOp(e: Engine, t: nat): (Engine, Out) {
    if t !in e.txns then (e, Failed(InvalidArgument))
    else if CommitConflicts(e, t) then (e, Failed(TxnConflict))
    else
      var after := WriteAll(e.store, Mutations(e, t));
      (Drop(e, t).(store := after), Wrote(after.last))
  }

  /** Own intent first, else the store at the snapshot. */
  function GetOp(e: Engine, t: nat, k: Bytes): Out {
    if t !in e.txns then Failed(InvalidArgument)
    else if k in e.intents && e.intents[k].txn == t then Value(e.intents[k].val)
    else Value(Read(e.store, k, At(e.txns[t].snapshot)))
  }

  function Step(e: Engine, op: Op): (Engine, Out) {
    match op
    case Put(k, v) => WriteOp(e, k, Some(v))
    case Delete(k) => WriteOp(e, k, None)
    case FlushOp => (e.(store := Flush(e.store)), Done)
    case CompactOp => (e.(store := Compact(e.store)), Done)
    case SyncSequence(min) => (e.(store := EnsureMinSequence(e.store, min)), Done)
    case BeginOp => (Begin(e), Began(e.nextTxn, e.store.last))
    case TxnGet(t, k) => (e, GetOp(e, t, k))
    case TxnPut(t, k, v) => StageOp(e, t, k, Some(v))
    case TxnDelete(t, k) => StageOp(e, t, k, None)
    case Commit(t) => CommitOp(e, t)
    case Rollback(t) => if t !in e.txns then (e, Failed(InvalidArgument)) else (Drop(e, t), Done)
  }
}
