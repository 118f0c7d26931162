/** How the two-phase-commit tables share one byte-string key space: key and value
    encodings, and the proof that they keep the tables apart. */
module TxnKeys {
  import opened ByteStrings
  import opened Integers
  import opened SystemKeys
  import opened TwoPhase

  /** `\x00txn/rec/` */
  const TXN_REC_PREFIX: Bytes := [0, 116, 120, 110, 47, 114, 101, 99, 47]
  /** `\x00txn/intent/` */
  const TXN_INTENT_PREFIX: Bytes := [0, 116, 120, 110, 47, 105, 110, 116, 101, 110, 116, 47]
  /** `\x00txn/dec/` */
  const TXN_DEC_PREFIX: Bytes := [0, 116, 120, 110, 47, 100, 101, 99, 47]

  function RecKey(id: TxnId): Bytes {
    TXN_REC_PREFIX + BigEndian(id, 8)
  }

  function DecKey(id: TxnId): Bytes {
    TXN_DEC_PREFIX + BigEndian(id, 8)
  }

  function IntentScanPrefix(id: TxnId): Bytes {
    TXN_INTENT_PREFIX + BigEndian(id, 8) + [47]
  }

  function IntentKey(id: TxnId, key: Bytes): Bytes {
    IntentScanPrefix(id) + key
  }

  function UserKeyFromIntentKey(id: TxnId, raw: Bytes): Option<Bytes> {
    var prefix := IntentScanPrefix(id);
    if HasPrefix(raw, prefix) then Some(raw[|prefix|..]) else None
  }

  function ParseRecTxnId(key: Bytes): (r: Option<TxnId>)
    ensures r.Some? <==> |key| == |TXN_REC_PREFIX| + 8 && HasPrefix(key, TXN_REC_PREFIX)
    ensures r.Some? ==> key == RecKey(r.value)
  {
    if |key| != |TXN_REC_PREFIX| + 8 || !HasPrefix(key, TXN_REC_PREFIX) then None else
      var tail := key[|TXN_REC_PREFIX|..];
      FromBigEndianRange(tail);
      Widths();
      assert key == key[..|TXN_REC_PREFIX|] + tail;
      Some(FromBigEndian(tail))
  }

  function StateByte(p: Phase): Byte {
    match p
    case Preparing => 1
    case Prepared => 2
    case Committed => 3
    case Aborted => 4
    case Committing => 5
  }

  function FromStateByte(b: Byte): (r: Option<Phase>)
    ensures forall p :: r == Some(p) <==> b == StateByte(p)
  {
    match b
    case 1 => Some(Preparing)
    case 2 => Some(Prepared)
    case 3 => Some(Committed)
    case 4 => Some(Aborted)
    case 5 => Some(Committing)
    case _ => None
  }

  function EncodeIntentValue(v: Option<Bytes>): Bytes {
    match v
    case Some(x) => [1] + x
    case None => [0]
  }

  /** None is the corruption error. */
  function DecodeIntentValue(raw: Bytes): (r: Option<Option<Bytes>>)
    ensures forall v :: r == Some(v) <==> raw == EncodeIntentValue(v)
  {
    if raw == [] then None
    else if raw[0] == 0 then (if |raw| != 1 then None else Some(None))
    else if raw[0] == 1 then
      (assert raw == [1] + raw[1..];
       assert forall x: Bytes :: raw == [1] + x ==> x == raw[1..];
       Some(Some(raw[1..])))
    else None
  }

  lemma IdInjective(a: TxnId, b: TxnId)
    requires BigEndian(a, 8) == BigEndian(b, 8)
    ensures a == b
  {
    Widths();
    BigEndianRoundTrip(a, 8);
    BigEndianRoundTrip(b, 8);
  }

  lemma IntentKeyParts(id: TxnId, k: Bytes)
    ensures var raw := IntentKey(id, k);
            |raw| == 21 + |k| && raw[12..20] == BigEndian(id, 8) && raw[21..] == k && raw[..12] == TXN_INTENT_PREFIX
  {
  }

  /** Distinct ids never share a record, decision or intent key, and the three tables
      and the user keys are disjoint. */
  lemma KeysApart(a: TxnId, b: TxnId, k: Bytes, l: Bytes)
    ensures RecKey(a) == RecKey(b) ==> a == b
    ensures DecKey(a) == DecKey(b) ==> a == b
    ensures IntentKey(a, k) == IntentKey(b, l) ==> a == b && k == l
    ensures RecKey(a) != DecKey(b) && RecKey(a) != IntentKey(b, l) && DecKey(a) != IntentKey(b, l)
    ensures IsTxnSystemKey(RecKey(a)) && IsTxnSystemKey(DecKey(a)) && IsTxnSystemKey(IntentKey(a, k))
  {
    if RecKey(a) == RecKey(b) {
      assert RecKey(a)[9..] == BigEndian(a, 8) && RecKey(b)[9..] == BigEndian(b, 8);
      IdInjective(a, b);
    }
    if DecKey(a) == DecKey(b) {
      assert DecKey(a)[9..] == BigEndian(a, 8) && DecKey(b)[9..] == BigEndian(b, 8);
      IdInjective(a, b);
    }
    IntentKeyParts(a, k);
    IntentKeyParts(b, l);
    if IntentKey(a, k) == IntentKey(b, l) {
      IdInjective(a, b);
    }
    assert RecKey(a)[5] == 114 && DecKey(b)[5] == 100 && DecKey(a)[5] == 100 && IntentKey(b, l)[5] == 105;
  }

  /** A key under the intent scan prefix of `id` is an intent key of `id` and of no
      other transaction. */
  lemma IntentScanExact(id: TxnId, raw: Bytes)
    ensures HasPrefix(raw, IntentScanPrefix(id)) <==> exists k :: raw == IntentKey(id, k)
    ensures UserKeyFromIntentKey(id, raw).Some? ==> raw == IntentKey(id, UserKeyFromIntentKey(id, raw).value)
  {
    var p := IntentScanPrefix(id);
    if HasPrefix(raw, p) {
      assert raw == p + raw[|p|..];
      assert raw == IntentKey(id, raw[|p|..]);
    }
  }

  // ---- The byte store represents the tables ----

  function At(kv: map<Bytes, Bytes>, k: Bytes): Option<Bytes> {
    if k in kv then Some(kv[k]) else None
  }

  function RecRaw(s: Shard, id: TxnId): Option<Bytes> {
    if id in s.recs then Some([StateByte(s.recs[id])]) else None
  }

  function DecRaw(s: Shard, id: TxnId): Option<Bytes> {
    if id in s.decs then Some([if s.decs[id] then 1 else 0]) else None
  }

  function IntentRaw(s: Shard, id: TxnId, k: Bytes): Option<Bytes> {
    if (id, k) in s.intents then Some(EncodeIntentValue(s.intents[(id, k)])) else None
  }

  ghost predicate RecsStored(kv: map<Bytes, Bytes>, s: Shard) {
    forall id :: At(kv, RecKey(id)) == RecRaw(s, id)
  }

  ghost predicate DecsStored(kv: map<Bytes, Bytes>, s: Shard) {
    forall id :: At(kv, DecKey(id)) == DecRaw(s, id)
  }

  ghost predicate IntentsStored(kv: map<Bytes, Bytes>, s: Shard) {
    forall id, k :: At(kv, IntentKey(id, k)) == IntentRaw(s, id, k)
  }

  ghost predicate UsersStored(kv: map<Bytes, Bytes>, s: Shard) {
    forall k :: !IsTxnSystemKey(k) ==> At(kv, k) == UserValue(s, k)
  }

  ghost predicate Represents(kv: map<Bytes, Bytes>, s: Shard) {
    RecsStored(kv, s) && DecsStored(kv, s) && IntentsStored(kv, s) && UsersStored(kv, s)
  }

  /** The key and value (None for a delete) a write puts on disk. */
  function Encode(w: Write): (Bytes, Option<Bytes>) {
    match w
    case PutRec(id, phase) => (RecKey(id), Some([StateByte(phase)]))
    case PutDec(id, commit) => (DecKey(id), Some([if commit then 1 else 0]))
    case PutIntent(id, key, val) => (IntentKey(id, key), Some(EncodeIntentValue(val)))
    case DelIntent(id, key) => (IntentKey(id, key), None)
    case PutUser(key, val) => (key, val)
  }

  /** Encoded writes act on the byte store exactly as they do on the tables. */
  lemma WriteRepresented(kv: map<Bytes, Bytes>, s: Shard, w: Write)
    requires Represents(kv, s) && (w.PutUser? ==> !IsTxnSystemKey(w.key))
    ensures Represents(SetUser(kv, Encode(w).0, Encode(w).1), Apply(s, w))
  {
    var key, val := Encode(w).0, Encode(w).1;
    var kv', s' := SetUser(kv, key, val), Apply(s, w);
    assert forall k :: At(kv', k) == if k == key then val else At(kv, k);
    forall id ensures At(kv', RecKey(id)) == RecRaw(s', id) { RecWritten(kv, s, w, id); }
    forall id ensures At(kv', DecKey(id)) == DecRaw(s', id) { DecWritten(kv, s, w, id); }
    forall id, k ensures At(kv', IntentKey(id, k)) == IntentRaw(s', id, k) { IntentWritten(kv, s, w, id, k); }
    forall k | !IsTxnSystemKey(k) ensures At(kv', k) == UserValue(s', k) { UserWritten(kv, s, w, k); }
  }

  function Written(kv: map<Bytes, Bytes>, w: Write, k: Bytes): Option<Bytes> {
    if k == Encode(w).0 then Encode(w).1 else At(kv, k)
  }

  lemma RecWritten(kv: map<Bytes, Bytes>, s: Shard, w: Write, id: TxnId)
    requires RecsStored(kv, s) && (w.PutUser? ==> !IsTxnSystemKey(w.key))
    ensures Written(kv, w, RecKey(id)) == RecRaw(Apply(s, w), id)
  {
    if w.PutUser? { KeysApart(id, id, [], []); } else { KeysApart(id, w.id, [], if w.PutIntent? || w.DelIntent? then w.key else []); }
    assert At(kv, RecKey(id)) == RecRaw(s, id);
  }

  lemma DecWritten(kv: map<Bytes, Bytes>, s: Shard, w: Write, id: TxnId)
    requires DecsStored(kv, s) && (w.PutUser? ==> !IsTxnSystemKey(w.key))
    ensures Written(kv, w, DecKey(id)) == DecRaw(Apply(s, w), id)
  {
    if w.PutUser? {
      KeysApart(id, id, [], []);
    } else {
      KeysApart(id, w.id, [], if w.PutIntent? || w.DelIntent? then w.key else []);
      KeysApart(w.id, id, [], []);
    }
    assert At(kv, DecKey(id)) == DecRaw(s, id);
  }

  lemma IntentWritten(kv: map<Bytes, Bytes>, s: Shard, w: Write, id: TxnId, k: Bytes)
    requires IntentsStored(kv, s) && (w.PutUser? ==> !IsTxnSystemKey(w.key))
    ensures Written(kv, w, IntentKey(id, k)) == IntentRaw(Apply(s, w), id, k)
  {
    if w.PutUser? {
      KeysApart(id, id, k, k);
    } else {
      KeysApart(id, w.id, k, if w.PutIntent? || w.DelIntent? then w.key else []);
      KeysApart(w.id, id, k, k);
    }
    assert At(kv, IntentKey(id, k)) == IntentRaw(s, id, k);
  }

  lemma UserWritten(kv: map<Bytes, Bytes>, s: Shard, w: Write, k: Bytes)
    requires UsersStored(kv, s) && !IsTxnSystemKey(k)
    ensures Written(kv, w, k) == UserValue(Apply(s, w), k)
  {
    if !w.PutUser? {
      KeysApart(w.id, w.id, if w.PutIntent? || w.DelIntent? then w.key else [], []);
    }
    assert At(kv, k) == UserValue(s, k);
  }

  // ---- Prefix scans ----

  /** The keys a prefix scan yields, in key order. */
  function KeysUnder(kv: map<Bytes, Bytes>, prefix: Bytes): (keys: seq<Bytes>)
    ensures forall k :: k in keys <==> k in kv && HasPrefix(k, prefix)
  {
    Sorted(set k | k in kv && HasPrefix(k, prefix))
  }

  function Prefixed(p: Bytes, keys: seq<Bytes>): (r: seq<Bytes>)
    ensures |r| == |keys| && forall i :: 0 <= i < |r| ==> r[i] == p + keys[i]
  {
    if keys == [] then [] else [p + keys[0]] + Prefixed(p, keys[1..])
  }

  /** The intent scan yields the intents of exactly this transaction, in key order. */
  lemma IntentScan(kv: map<Bytes, Bytes>, s: Shard, id: TxnId)
    requires IntentsStored(kv, s)
    ensures KeysUnder(kv, IntentScanPrefix(id)) == Prefixed(IntentScanPrefix(id), IntentKeys(s, id))
  {
    var p := IntentScanPrefix(id);
    var keys := IntentKeys(s, id);
    var got := Prefixed(p, keys);
    forall i, j | 0 <= i < j < |got| ensures Less(got[i], got[j]) {
      LessAppended(p, keys[i], keys[j]);
    }
    forall raw ensures raw in got <==> raw in KeysUnder(kv, p) {
      ScannedKey(kv, s, id, raw);
    }
    SortedUnique(got, KeysUnder(kv, p));
  }

  lemma ScannedKey(kv: map<Bytes, Bytes>, s: Shard, id: TxnId, raw: Bytes)
    requires IntentsStored(kv, s)
    ensures raw in Prefixed(IntentScanPrefix(id), IntentKeys(s, id)) <==> raw in KeysUnder(kv, IntentScanPrefix(id))
  {
    var p, keys := IntentScanPrefix(id), IntentKeys(s, id);
    var got := Prefixed(p, keys);
    if raw in got {
      var i :| 0 <= i < |got| && got[i] == raw;
      ScannedIntent(kv, s, id, keys[i]);
    }
    if raw in KeysUnder(kv, p) {
      var k := raw[|p|..];
      assert raw == p + k;
      ScannedIntent(kv, s, id, k);
      var i :| 0 <= i < |keys| && keys[i] == k;
      assert got[i] == raw;
    }
  }

  lemma ScannedIntent(kv: map<Bytes, Bytes>, s: Shard, id: TxnId, k: Bytes)
    requires IntentsStored(kv, s)
    ensures IntentKey(id, k) in KeysUnder(kv, IntentScanPrefix(id)) <==> k in IntentKeys(s, id)
  {
  }
}
