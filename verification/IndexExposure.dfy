/** Which indexes the records, decisions and intents of two-phase commit can make stale:
    those rows are written without index maintenance. */
module IndexExposure {
  import opened ByteStrings
  import opened Integers
  import opened SystemKeys
  import opened TwoPhase
  import opened TxnKeys
  import opened IndexKeys

  /** A raw write two-phase commit makes: never a user key, an intent only on a key it
      does not refuse, and a length the store accepts. */
  predicate Writable(w: Write) {
    && !w.PutUser? && KeyLenOk(Encode(w).0)
    && (w.PutIntent? ==> !ReservedMutation((w.key, w.val)))
  }

  /** The write puts a row under the prefix from which a secondary can be extracted. */
  predicate Shows(w: Write, prefix: Bytes, e: Extractor) {
    HasPrefix(Encode(w).0, prefix) && Encode(w).1.Some? && Extract(e, Encode(w).1.value).Some?
  }

  // ---- A condition on prefix and extractor alone ----

  /** Some key consists of `fixed` and any eight bytes, and has the prefix. */
  predicate IdUnder(fixed: Bytes, prefix: Bytes) {
    HasPrefix(fixed, prefix) || (HasPrefix(prefix, fixed) && |prefix| <= |fixed| + 8)
  }

  /** Some intent key has the prefix; behind the id and the slash comes a key that
      two-phase commit does not refuse. */
  predicate IntentUnder(prefix: Bytes) {
    IdUnder(TXN_INTENT_PREFIX, prefix)
    || (HasPrefix(prefix, TXN_INTENT_PREFIX) && |prefix| > 20 && prefix[20] == 47 && !IsSystemKey(prefix[21..]))
  }

  /** One of the single bytes from `lo` to `hi` has a secondary. */
  predicate ByteShows(e: Extractor, lo: Byte, hi: Byte) {
    e.Field? ==> e.index == 0 || (e.index == 1 && lo <= e.delimiter <= hi)
  }

  predicate Exposed(prefix: Bytes, e: Extractor) {
    || (IdUnder(TXN_REC_PREFIX, prefix) && ByteShows(e, 1, 5))
    || (IdUnder(TXN_DEC_PREFIX, prefix) && ByteShows(e, 0, 1))
    || IntentUnder(prefix)
  }

  // ---- Keys ----

  lemma IdFor(fixed: Bytes, prefix: Bytes) returns (id: TxnId)
    requires IdUnder(fixed, prefix)
    ensures HasPrefix(fixed + BigEndian(id, 8), prefix)
  {
    Widths();
    if HasPrefix(fixed, prefix) {
      id := 0;
      assert (fixed + BigEndian(id, 8))[..|prefix|] == fixed[..|prefix|];
    } else {
      var head := prefix[|fixed|..];
      var tail := head + seq(8 - |head|, _ => 0);
      FromBigEndianRange(tail);
      id := FromBigEndian(tail);
      assert prefix == fixed + head;
      assert (fixed + tail)[..|prefix|] == fixed + head;
    }
  }

  lemma UnderId(fixed: Bytes, id: TxnId, rest: Bytes, prefix: Bytes)
    requires HasPrefix(fixed + BigEndian(id, 8) + rest, prefix) && |prefix| <= |fixed| + 8
    ensures IdUnder(fixed, prefix)
  {
    var key := fixed + BigEndian(id, 8) + rest;
    if |prefix| <= |fixed| {
      assert fixed[..|prefix|] == key[..|prefix|];
    } else {
      assert prefix[..|fixed|] == key[..|fixed|] == fixed;
    }
  }

  lemma IntentFor(prefix: Bytes) returns (id: TxnId, k: Bytes)
    requires IntentUnder(prefix) && KeyLenOk(prefix)
    ensures HasPrefix(IntentKey(id, k), prefix) && k != [] && !IsSystemKey(k) && KeyLenOk(IntentKey(id, k))
  {
    Widths();
    if IdUnder(TXN_INTENT_PREFIX, prefix) {
      id := IdFor(TXN_INTENT_PREFIX, prefix);
      k := [1];
      var head := TXN_INTENT_PREFIX + BigEndian(id, 8);
      assert IntentKey(id, k)[..|prefix|] == head[..|prefix|];
    } else {
      FromBigEndianRange(prefix[12..20]);
      id := FromBigEndian(prefix[12..20]);
      k := if |prefix| == 21 then [1] else prefix[21..];
      IntentKeyParts(id, k);
      assert prefix == prefix[..12] + prefix[12..20] + [prefix[20]] + prefix[21..];
      assert |prefix| == 21 ==> prefix[21..] == [];
    }
  }

  lemma IntentIsUnder(id: TxnId, k: Bytes, prefix: Bytes)
    requires HasPrefix(IntentKey(id, k), prefix) && !IsSystemKey(k)
    ensures IntentUnder(prefix)
  {
    IntentKeyParts(id, k);
    if |prefix| <= 20 {
      assert IntentKey(id, k) == TXN_INTENT_PREFIX + BigEndian(id, 8) + ([47] + k);
      UnderId(TXN_INTENT_PREFIX, id, [47] + k, prefix);
    } else {
      assert prefix[..12] == IntentKey(id, k)[..12] && prefix[20] == IntentKey(id, k)[20] == 47;
      var tail := prefix[21..];
      assert k[..|tail|] == tail;
      PrefixNotSystem(k, tail);
    }
  }

  lemma PrefixNotSystem(k: Bytes, tail: Bytes)
    requires HasPrefix(k, tail) && !IsSystemKey(k)
    ensures !IsSystemKey(tail)
  {
  }

  // ---- Values ----

  lemma OneByte(b: Byte, d: Byte)
    ensures |Split([b], d)| == if b == d then 2 else 1
  {
    assert [b][1..] == [] && Split([], d) == [[]];
  }

  lemma ByteExtracts(e: Extractor, b: Byte)
    ensures Extract(e, [b]).Some? <==> ByteShows(e, b, b)
  {
    if e.Field? {
      OneByte(b, e.delimiter);
    }
  }

  /** Some intent value has a secondary for every extractor. */
  lemma IntentValueFor(e: Extractor) returns (x: Bytes)
    ensures Extract(e, EncodeIntentValue(Some(x))).Some?
  {
    x := [];
    if e.Field? {
      x := seq(e.index, _ => e.delimiter);
      Delimiters(e.delimiter, e.index);
      assert ([1] + x)[1..] == x;
    }
  }

  lemma {:induction false} Delimiters(d: Byte, n: nat)
    ensures |Split(seq(n, _ => d), d)| == n + 1
    decreases n
  {
    if n > 0 {
      Delimiters(d, n - 1);
      assert seq(n, _ => d)[1..] == seq(n - 1, _ => d);
    }
  }

  // ---- The condition is exact ----

  lemma ShownIsExposed(w: Write, prefix: Bytes, e: Extractor)
    requires Writable(w) && Shows(w, prefix, e)
    ensures Exposed(prefix, e)
  {
    match w
    case PutRec(id, phase) =>
      assert RecKey(id) + [] == RecKey(id);
      UnderId(TXN_REC_PREFIX, id, [], prefix);
      ByteExtracts(e, StateByte(phase));
    case PutDec(id, commit) =>
      assert DecKey(id) + [] == DecKey(id);
      UnderId(TXN_DEC_PREFIX, id, [], prefix);
      ByteExtracts(e, if commit then 1 else 0);
    case PutIntent(id, k, _) => IntentIsUnder(id, k, prefix);
  }

  /** A phase whose byte shows. */
  function PhaseFor(e: Extractor): Phase {
    if e.Field? && e.index == 1 then
      match e.delimiter
      case 2 => Prepared
      case 3 => Committed
      case 4 => Aborted
      case 5 => Committing
      case _ => Preparing
    else Preparing
  }

  lemma ExposedIsShown(prefix: Bytes, e: Extractor) returns (w: Write)
    requires Exposed(prefix, e) && KeyLenOk(prefix)
    ensures Writable(w) && Shows(w, prefix, e)
  {
    if IdUnder(TXN_REC_PREFIX, prefix) && ByteShows(e, 1, 5) {
      var id := IdFor(TXN_REC_PREFIX, prefix);
      w := PutRec(id, PhaseFor(e));
      ByteExtracts(e, StateByte(PhaseFor(e)));
    } else if IdUnder(TXN_DEC_PREFIX, prefix) && ByteShows(e, 0, 1) {
      var id := IdFor(TXN_DEC_PREFIX, prefix);
      var commit := e.Field? && e.index == 1 && e.delimiter == 1;
      w := PutDec(id, commit);
      ByteExtracts(e, if commit then 1 else 0);
    } else {
      var id, k := IntentFor(prefix);
      var x := IntentValueFor(e);
      w := PutIntent(id, k, Some(x));
    }
  }

  // ---- Such writes are made ----

  const NOTHING := Shard(map[], map[], map[], map[])

  /** Every write that puts a row is made by an operation on a participant that holds
      nothing yet. */
  lemma WriteIsIssued(w: Write) returns (op: Op, n: nat)
    requires Writable(w) && Encode(w).1.Some?
    ensures n < |Script(NOTHING, op)| && Script(NOTHING, op)[n] == w
  {
    match w
    case PutRec(id, phase) =>
      match phase {
        case Preparing => op, n := Prepare(id, []), 0;
        case Prepared => op, n := Prepare(id, []), 1; assert AllAllowed([]);
        case Committing => op, n := Commit(id), 0;
        case Committed => op := Commit(id); n := |Script(NOTHING, op)| - 1;
        case Aborted => op := Abort(id); n := |Script(NOTHING, op)| - 1;
      }
    case PutDec(id, commit) => op, n := Decide(id, commit), 0;
    case PutIntent(id, k, v) =>
      op, n := Prepare(id, [(k, v)]), 1;
      assert IntentPuts(id, [(k, v)]) == [PutIntent(id, k, v)];
  }
}
