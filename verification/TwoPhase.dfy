/** A two-phase-commit participant as scripts of durable writes. Every operation is
    the list of writes it issues in order; a crash keeps a prefix of it. */
module TwoPhase {
  import opened ByteStrings
  import opened SystemKeys

  type TxnId = n: nat | n < 0x1_0000_0000_0000_0000

  datatype Phase = Preparing | Prepared | Committed | Aborted | Committing

  /** The durable key space of one participant, split into the record, decision,
      intent and user tables. */
  datatype Shard = Shard(recs: map<TxnId, Phase>, decs: map<TxnId, bool>,
                         intents: map<(TxnId, Bytes), Option<Bytes>>, user: map<Bytes, Bytes>)

  datatype Write =
    | PutRec(id: TxnId, phase: Phase)
    | PutDec(id: TxnId, commit: bool)
    | PutIntent(id: TxnId, key: Bytes, val: Option<Bytes>)
    | DelIntent(id: TxnId, key: Bytes)
    | PutUser(key: Bytes, val: Option<Bytes>)

  type Mutation = (Bytes, Option<Bytes>)

  function SetUser(user: map<Bytes, Bytes>, k: Bytes, v: Option<Bytes>): map<Bytes, Bytes> {
    match v
    case Some(x) => user[k := x]
    case None => user - {k}
  }

  function UserValue(s: Shard, k: Bytes): Option<Bytes> {
    if k in s.user then Some(s.user[k]) else None
  }

  function Apply(s: Shard, w: Write): Shard {
    match w
    case PutRec(id, phase) => s.(recs := s.recs[id := phase])
    case PutDec(id, commit) => s.(decs := s.decs[id := commit])
    case PutIntent(id, key, val) => s.(intents := s.intents[(id, key) := val])
    case DelIntent(id, key) => s.(intents := s.intents - {(id, key)})
    case PutUser(key, val) => s.(user := SetUser(s.user, key, val))
  }

  function ApplyAll(s: Shard, ws: seq<Write>): Shard
    decreases |ws|
  {
    if ws == [] then s else ApplyAll(Apply(s, ws[0]), ws[1..])
  }

  // ---- The operations ----

  /** Keys holding an intent of `id`, in the order the prefix scan yields them. */
  function IntentKeys(s: Shard, id: TxnId): (keys: seq<Bytes>)
    ensures forall k :: k in keys <==> (id, k) in s.intents
  {
    Sorted(set p | p in s.intents && p.0 == id :: p.1)
  }

  function Materialize(s: Shard, id: TxnId, keys: seq<Bytes>): seq<Write>
    requires forall i :: 0 <= i < |keys| ==> (id, keys[i]) in s.intents
  {
    if keys == [] then [] else [PutUser(keys[0], s.intents[(id, keys[0])])] + Materialize(s, id, keys[1..])
  }

  function Clear(id: TxnId, keys: seq<Bytes>): seq<Write> {
    if keys == [] then [] else [DelIntent(id, keys[0])] + Clear(id, keys[1..])
  }

  /** Writes every intent to its user key, then drops the intents, then marks the
      record `Committed`. */
  function FinishScript(s: Shard, id: TxnId): seq<Write> {
    var keys := IntentKeys(s, id);
    assert forall i :: 0 <= i < |keys| ==> keys[i] in keys;
    Materialize(s, id, keys) + Clear(id, keys) + [PutRec(id, Committed)]
  }

  predicate ReservedMutation(m: Mutation) {
    m.0 == [] || IsSystemKey(m.0)
  }

  /** The intents written before the first refused mutation. */
  function IntentPuts(id: TxnId, muts: seq<Mutation>): seq<Write> {
    if muts == [] || ReservedMutation(muts[0]) then []
    else [PutIntent(id, muts[0].0, muts[0].1)] + IntentPuts(id, muts[1..])
  }

  predicate AllAllowed(muts: seq<Mutation>) {
    muts == [] || (!ReservedMutation(muts[0]) && AllAllowed(muts[1..]))
  }

  function PrepareScript(id: TxnId, muts: seq<Mutation>): seq<Write> {
    [PutRec(id, Preparing)] + IntentPuts(id, muts) + (if AllAllowed(muts) then [PutRec(id, Prepared)] else [])
  }

  function PhaseOf(s: Shard, id: TxnId): Option<Phase> {
    if id in s.recs then Some(s.recs[id]) else None
  }

  function DecisionOf(s: Shard, id: TxnId): Option<bool> {
    if id in s.decs then Some(s.decs[id]) else None
  }

  function CommitScript(s: Shard, id: TxnId): seq<Write> {
    match PhaseOf(s, id)
    case Some(Committed) => []
    case Some(Aborted) => []
    case Some(Committing) => FinishScript(s, id)
    case _ => [PutRec(id, Committing)] + FinishScript(s, id)
  }

  function AbortScript(s: Shard, id: TxnId): seq<Write> {
    match PhaseOf(s, id)
    case Some(Aborted) => []
    case Some(Committed) => []
    case Some(Committing) => []
    case _ => Clear(id, IntentKeys(s, id)) + [PutRec(id, Aborted)]
  }

  /** Drives an undecided local record to the decided outcome. */
  function ResolveScript(s: Shard, id: TxnId, commit: bool): seq<Write> {
    match PhaseOf(s, id)
    case Some(Preparing) => if commit then CommitScript(s, id) else AbortScript(s, id)
    case Some(Prepared) => if commit then CommitScript(s, id) else AbortScript(s, id)
    case _ => []
  }

  function DecisionScript(s: Shard, id: TxnId, commit: bool): seq<Write> {
    match DecisionOf(s, id)
    case Some(prev) => if prev != commit then [] else ResolveScript(s, id, commit)
    case None => [PutDec(id, commit)] + ResolveScript(s, id, commit)
  }

  /** Recovery of one record whose scanned phase is `phase`. */
  function RowScript(s: Shard, id: TxnId, phase: Phase): seq<Write> {
    match phase
    case Committing => CommitScript(s, id)
    case Committed => []
    case Aborted => []
    case _ =>
      match DecisionOf(s, id)
      case Some(commit) => if commit then CommitScript(s, id) else AbortScript(s, id)
      case None => if phase == Preparing then AbortScript(s, id) else []
  }

  function RowsScript(s: Shard, rows: seq<(TxnId, Phase)>): seq<Write>
    decreases |rows|
  {
    if rows == [] then [] else
      var ws := RowScript(s, rows[0].0, rows[0].1);
      ws + RowsScript(ApplyAll(s, ws), rows[1..])
  }

  predicate RowsMatch(s: Shard, rows: seq<(TxnId, Phase)>) {
    && (forall i :: 0 <= i < |rows| ==> PhaseOf(s, rows[i].0) == Some(rows[i].1))
    && (forall i, j :: 0 <= i < j < |rows| ==> rows[i].0 != rows[j].0)
  }

  predicate Listed(id: TxnId, rows: seq<(TxnId, Phase)>) {
    exists i :: 0 <= i < |rows| && rows[i].0 == id
  }

  /** The rows of a scan over the record table: each record once, with its phase. */
  predicate RecRows(s: Shard, rows: seq<(TxnId, Phase)>) {
    RowsMatch(s, rows) && forall id :: id in s.recs ==> Listed(id, rows)
  }

  datatype Op =
    | Prepare(id: TxnId, muts: seq<Mutation>)
    | Commit(id: TxnId)
    | Abort(id: TxnId)
    | Decide(id: TxnId, commit: bool)
    | Recover(rows: seq<(TxnId, Phase)>)

  function Script(s: Shard, op: Op): seq<Write> {
    match op
    case Prepare(id, muts) => PrepareScript(id, muts)
    case Commit(id) => CommitScript(s, id)
    case Abort(id) => AbortScript(s, id)
    case Decide(id, commit) => DecisionScript(s, id, commit)
    case Recover(rows) => RowsScript(s, rows)
  }

  /** A recovery works from a scan of the records; the others run in any state. */
  predicate Runnable(s: Shard, op: Op) {
    op.Recover? ==> RecRows(s, op.rows)
  }

  // ---- The write discipline ----

  ghost predicate NoIntents(s: Shard, id: TxnId) {
    forall k :: (id, k) !in s.intents
  }

  /** No intent is on a key that a prepare refuses. */
  ghost predicate IntentsAllowed(s: Shard) {
    forall p :: p in s.intents ==> p.1 != [] && !IsSystemKey(p.1)
  }

  predicate Undecided(s: Shard, id: TxnId) {
    var p := PhaseOf(s, id);
    p == None || p == Some(Preparing) || p == Some(Prepared)
  }

  ghost predicate CommittingIntent(s: Shard, id: TxnId, k: Bytes, v: Option<Bytes>) {
    PhaseOf(s, id) == Some(Committing) && (id, k) in s.intents && s.intents[(id, k)] == v
  }

  /** What each durable write outside a prepare may rely on in the state it lands in. */
  ghost predicate Disciplined(s: Shard, w: Write) {
    match w
    case PutRec(id, phase) =>
      (match phase
       case Committing => Undecided(s, id)
       case Committed => PhaseOf(s, id) == Some(Committing) && NoIntents(s, id)
       case Aborted => Undecided(s, id) && NoIntents(s, id)
       case _ => false)
    case PutDec(id, _) => id !in s.decs
    case PutIntent(_, _, _) => false
    case DelIntent(id, k) => Undecided(s, id) || CommittingIntent(s, id, k, UserValue(s, k))
    case PutUser(k, v) => exists id :: CommittingIntent(s, id, k, v)
  }

  ghost predicate Guarded(s: Shard, ws: seq<Write>)
    decreases |ws|
  {
    ws == [] || (Disciplined(s, ws[0]) && Guarded(Apply(s, ws[0]), ws[1..]))
  }

  lemma {:induction false} ApplyConcat(s: Shard, a: seq<Write>, b: seq<Write>)
    ensures ApplyAll(s, a + b) == ApplyAll(ApplyAll(s, a), b)
    decreases |a|
  {
    if a == [] {
      assert a + b == b;
    } else {
      ApplyConcat(Apply(s, a[0]), a[1..], b);
      assert (a + b)[1..] == a[1..] + b;
    }
  }

  lemma {:induction false} GuardedConcat(s: Shard, a: seq<Write>, b: seq<Write>)
    requires Guarded(s, a) && Guarded(ApplyAll(s, a), b)
    ensures Guarded(s, a + b)
    decreases |a|
  {
    if a == [] {
      assert a + b == b;
    } else {
      GuardedConcat(Apply(s, a[0]), a[1..], b);
      assert (a + b)[1..] == a[1..] + b;
    }
  }

  lemma {:induction false} GuardedPrefix(s: Shard, ws: seq<Write>, n: nat)
    requires Guarded(s, ws) && n <= |ws|
    ensures Guarded(s, ws[..n])
    decreases n
  {
    if n > 0 {
      GuardedPrefix(Apply(s, ws[0]), ws[1..], n - 1);
      assert ws[..n][1..] == ws[1..][..n - 1];
    }
  }

  // ---- Every operation outside prepare keeps the discipline ----

  ghost predicate Distinct(keys: seq<Bytes>) {
    forall i, j :: 0 <= i < j < |keys| ==> keys[i] != keys[j]
  }

  lemma {:induction false} MaterializeEffect(s: Shard, at: Shard, id: TxnId, keys: seq<Bytes>)
    requires forall i :: 0 <= i < |keys| ==> (id, keys[i]) in s.intents
    requires at.intents == s.intents && PhaseOf(at, id) == Some(Committing)
    ensures Guarded(at, Materialize(s, id, keys))
    ensures var t := ApplyAll(at, Materialize(s, id, keys));
            && t == at.(user := t.user)
            && (forall k :: k in keys ==> UserValue(t, k) == s.intents[(id, k)])
            && (forall k :: k !in keys ==> UserValue(t, k) == UserValue(at, k))
    decreases |keys|
  {
    if keys != [] {
      var w := PutUser(keys[0], s.intents[(id, keys[0])]);
      assert CommittingIntent(at, id, keys[0], w.val);
      var next := Apply(at, w);
      MaterializeEffect(s, next, id, keys[1..]);
      var ws := Materialize(s, id, keys);
      assert ws[0] == w && ws[1..] == Materialize(s, id, keys[1..]);
      assert forall k :: k in keys ==> k == keys[0] || k in keys[1..];
    }
  }

  ghost predicate Clearable(s: Shard, id: TxnId, keys: seq<Bytes>) {
    || Undecided(s, id)
    || forall i :: 0 <= i < |keys| ==> CommittingIntent(s, id, keys[i], UserValue(s, keys[i]))
  }

  lemma {:induction false} ClearEffect(s: Shard, id: TxnId, keys: seq<Bytes>)
    requires Distinct(keys) && Clearable(s, id, keys)
    ensures Guarded(s, Clear(id, keys))
    ensures ApplyAll(s, Clear(id, keys)) == s.(intents := s.intents - set k | k in keys :: (id, k))
    decreases |keys|
  {
    if keys == [] {
      assert s.intents - (set k | k in keys :: (id, k)) == s.intents;
    } else {
      var next := Apply(s, DelIntent(id, keys[0]));
      forall i | 0 <= i < |keys[1..]| && !Undecided(s, id)
        ensures CommittingIntent(next, id, keys[1..][i], UserValue(next, keys[1..][i]))
      {
        assert CommittingIntent(s, id, keys[i + 1], UserValue(s, keys[i + 1]));
        assert keys[0] != keys[i + 1];
      }
      ClearEffect(next, id, keys[1..]);
      RemoveEach(s.intents, id, keys);
      var ws := Clear(id, keys);
      assert ws[0] == DelIntent(id, keys[0]) && ws[1..] == Clear(id, keys[1..]);
    }
  }

  lemma RemoveEach(m: map<(TxnId, Bytes), Option<Bytes>>, id: TxnId, keys: seq<Bytes>)
    requires keys != []
    ensures m - {(id, keys[0])} - (set k | k in keys[1..] :: (id, k)) == m - set k | k in keys :: (id, k)
  {
  }

  lemma SortedDistinct(keys: seq<Bytes>)
    requires StrictlySorted(keys)
    ensures Distinct(keys)
  {
    forall i, j | 0 <= i < j < |keys| ensures keys[i] != keys[j] {
      LessIrreflexive(keys[i]);
    }
  }

  function WithoutIntents(s: Shard, id: TxnId): (m: map<(TxnId, Bytes), Option<Bytes>>) {
    map p | p in s.intents && p.0 != id :: s.intents[p]
  }

  lemma ClearsAll(s: Shard, id: TxnId)
    ensures s.intents - (set k | k in IntentKeys(s, id) :: (id, k)) == WithoutIntents(s, id)
    ensures Distinct(IntentKeys(s, id))
  {
    SortedDistinct(IntentKeys(s, id));
    forall p | p in s.intents && p.0 == id ensures p.1 in IntentKeys(s, id) {
      assert p == (id, p.1);
    }
  }

  /** The user table after the intents of `id` are materialized. */
  ghost predicate Overlaid(s: Shard, id: TxnId, user: map<Bytes, Bytes>) {
    forall k :: UserValue(s.(user := user), k) ==
                if (id, k) in s.intents then s.intents[(id, k)] else UserValue(s, k)
  }

  lemma FinishEffect(s: Shard, id: TxnId)
    requires PhaseOf(s, id) == Some(Committing)
    ensures Guarded(s, FinishScript(s, id))
    ensures var t := ApplyAll(s, FinishScript(s, id));
            t == Shard(s.recs[id := Committed], s.decs, WithoutIntents(s, id), t.user) && Overlaid(s, id, t.user)
  {
    var keys := IntentKeys(s, id);
    assert forall i :: 0 <= i < |keys| ==> keys[i] in keys;
    ClearsAll(s, id);
    var a := Materialize(s, id, keys);
    MaterializeEffect(s, s, id, keys);
    var t := ApplyAll(s, a);
    forall i | 0 <= i < |keys| ensures CommittingIntent(t, id, keys[i], UserValue(t, keys[i])) {
      assert keys[i] in keys;
    }
    ClearEffect(t, id, keys);
    var u := ApplyAll(t, Clear(id, keys));
    var last := [PutRec(id, Committed)];
    assert Disciplined(u, last[0]);
    ApplyConcat(s, a, Clear(id, keys));
    GuardedConcat(s, a, Clear(id, keys));
    ApplyConcat(s, a + Clear(id, keys), last);
    GuardedConcat(s, a + Clear(id, keys), last);
    assert ApplyAll(u, last) == Apply(u, last[0]);
  }

  lemma CommitEffect(s: Shard, id: TxnId)
    ensures Guarded(s, CommitScript(s, id))
    ensures var t := ApplyAll(s, CommitScript(s, id));
            if Undecided(s, id) || PhaseOf(s, id) == Some(Committing) then
              t == Shard(s.recs[id := Committed], s.decs, WithoutIntents(s, id), t.user) && Overlaid(s, id, t.user)
            else t == s
  {
    if PhaseOf(s, id) == Some(Committing) {
      FinishEffect(s, id);
    } else if Undecided(s, id) {
      MarkThenFinish(s, id);
    }
  }

  lemma MarkThenFinish(s: Shard, id: TxnId)
    requires Undecided(s, id)
    ensures var ws := [PutRec(id, Committing)] + FinishScript(s, id);
            var t := ApplyAll(s, ws);
            && Guarded(s, ws)
            && t == Shard(s.recs[id := Committed], s.decs, WithoutIntents(s, id), t.user) && Overlaid(s, id, t.user)
  {
    var first := [PutRec(id, Committing)];
    var t := Apply(s, first[0]);
    assert first[1..] == [] && ApplyAll(s, first) == t && Guarded(s, first);
    SameFinish(s, t, id);
    FinishEffect(t, id);
    ApplyConcat(s, first, FinishScript(s, id));
    GuardedConcat(s, first, FinishScript(s, id));
    SameOverlay(s, t, id, ApplyAll(t, FinishScript(t, id)).user);
    assert t.recs[id := Committed] == s.recs[id := Committed];
  }

  lemma SameOverlay(s: Shard, t: Shard, id: TxnId, user: map<Bytes, Bytes>)
    requires s.intents == t.intents && s.user == t.user && Overlaid(t, id, user)
    ensures Overlaid(s, id, user)
  {
  }

  /** Marking the record does not change what a finish will write. */
  lemma SameFinish(s: Shard, t: Shard, id: TxnId)
    requires s.intents == t.intents
    ensures FinishScript(s, id) == FinishScript(t, id) && WithoutIntents(s, id) == WithoutIntents(t, id)
  {
    var keys := IntentKeys(s, id);
    assert forall i :: 0 <= i < |keys| ==> keys[i] in keys;
    SameMaterialize(s, t, id, keys);
  }

  lemma {:induction false} SameMaterialize(s: Shard, t: Shard, id: TxnId, keys: seq<Bytes>)
    requires s.intents == t.intents && forall i :: 0 <= i < |keys| ==> (id, keys[i]) in s.intents
    ensures Materialize(s, id, keys) == Materialize(t, id, keys)
    decreases |keys|
  {
    if keys != [] {
      SameMaterialize(s, t, id, keys[1..]);
    }
  }

  lemma AbortEffect(s: Shard, id: TxnId)
    ensures Guarded(s, AbortScript(s, id))
    ensures var t := ApplyAll(s, AbortScript(s, id));
            if Undecided(s, id) then t == Shard(s.recs[id := Aborted], s.decs, WithoutIntents(s, id), s.user)
            else t == s
  {
    if Undecided(s, id) {
      var keys := IntentKeys(s, id);
      ClearsAll(s, id);
      ClearEffect(s, id, keys);
      var t := ApplyAll(s, Clear(id, keys));
      var last := [PutRec(id, Aborted)];
      assert Disciplined(t, last[0]);
      ApplyConcat(s, Clear(id, keys), last);
      GuardedConcat(s, Clear(id, keys), last);
      assert ApplyAll(t, last) == Apply(t, last[0]);
    }
  }

  // ---- Recovery ----

  /** What recovery turns a record into. */
  function Outcome(s: Shard, id: TxnId): Option<Phase> {
    match PhaseOf(s, id)
    case Some(Committing) => Some(Committed)
    case Some(Preparing) => if DecisionOf(s, id) == Some(true) then Some(Committed) else Some(Aborted)
    case Some(Prepared) =>
      (match DecisionOf(s, id)
       case Some(commit) => if commit then Some(Committed) else Some(Aborted)
       case None => Some(Prepared))
    case p => p
  }

  ghost predicate SameIntents(s: Shard, t: Shard, id: TxnId) {
    forall k :: ((id, k) in s.intents <==> (id, k) in t.intents)
             && ((id, k) in s.intents ==> s.intents[(id, k)] == t.intents[(id, k)])
  }

  /** Between `s` and `t` only transaction `id` was resolved. */
  ghost predicate OnlyResolved(s: Shard, t: Shard, id: TxnId) {
    && t.decs == s.decs && t.recs.Keys == s.recs.Keys
    && PhaseOf(t, id) == Outcome(s, id)
    && (forall j :: j != id ==> PhaseOf(t, j) == PhaseOf(s, j) && SameIntents(s, t, j))
    && (Outcome(s, id) == PhaseOf(s, id) ==> t == s)
    && (Outcome(s, id) != PhaseOf(s, id) ==> NoIntents(t, id))
  }

  lemma ResolvedTo(s: Shard, id: TxnId, phase: Phase, user: map<Bytes, Bytes>)
    requires id in s.recs && Outcome(s, id) == Some(phase) && s.recs[id] != phase
    ensures OnlyResolved(s, Shard(s.recs[id := phase], s.decs, WithoutIntents(s, id), user), id)
  {
  }

  lemma RowEffect(s: Shard, id: TxnId, phase: Phase)
    requires PhaseOf(s, id) == Some(phase)
    ensures Guarded(s, RowScript(s, id, phase))
    ensures OnlyResolved(s, ApplyAll(s, RowScript(s, id, phase)), id)
  {
    var ws := RowScript(s, id, phase);
    if Outcome(s, id) == Some(phase) {
      assert ws == [];
    } else if Outcome(s, id) == Some(Committed) {
      assert ws == CommitScript(s, id);
      CommitEffect(s, id);
      ResolvedTo(s, id, Committed, ApplyAll(s, ws).user);
    } else {
      assert ws == AbortScript(s, id);
      AbortEffect(s, id);
      ResolvedTo(s, id, Aborted, s.user);
    }
  }

  /** After the rows are processed: listed records have their outcome, the others and
      every undecided prepared transaction are as before. */
  ghost predicate RowsResolved(s: Shard, t: Shard, rows: seq<(TxnId, Phase)>) {
    && t.decs == s.decs && t.recs.Keys == s.recs.Keys
    && (forall id :: Listed(id, rows) ==> PhaseOf(t, id) == Outcome(s, id))
    && (forall id :: Listed(id, rows) && Outcome(s, id) != PhaseOf(s, id) ==> NoIntents(t, id))
    && (forall id :: !Listed(id, rows) ==> PhaseOf(t, id) == PhaseOf(s, id))
    && (forall id :: !Listed(id, rows) || Outcome(s, id) == PhaseOf(s, id) ==> SameIntents(s, t, id))
  }

  lemma ListedSplit(rows: seq<(TxnId, Phase)>, id: TxnId)
    requires rows != []
    ensures Listed(id, rows) <==> id == rows[0].0 || Listed(id, rows[1..])
  {
  }

  lemma RowsStillMatch(s: Shard, t: Shard, rows: seq<(TxnId, Phase)>)
    requires rows != [] && RowsMatch(s, rows) && OnlyResolved(s, t, rows[0].0)
    ensures RowsMatch(t, rows[1..]) && !Listed(rows[0].0, rows[1..])
  {
  }

  lemma SameOutcome(s: Shard, t: Shard, id: TxnId)
    requires t.decs == s.decs && PhaseOf(t, id) == PhaseOf(s, id)
    ensures Outcome(t, id) == Outcome(s, id)
  {
  }

  lemma RowsResolvedStep(s: Shard, t: Shard, u: Shard, rows: seq<(TxnId, Phase)>)
    requires rows != [] && OnlyResolved(s, t, rows[0].0) && !Listed(rows[0].0, rows[1..]) && RowsResolved(t, u, rows[1..])
    ensures RowsResolved(s, u, rows)
  {
    forall id ensures (Listed(id, rows) ==> PhaseOf(u, id) == Outcome(s, id))
                   && (Listed(id, rows) && Outcome(s, id) != PhaseOf(s, id) ==> NoIntents(u, id))
                   && (!Listed(id, rows) ==> PhaseOf(u, id) == PhaseOf(s, id))
                   && (!Listed(id, rows) || Outcome(s, id) == PhaseOf(s, id) ==> SameIntents(s, u, id))
    {
      ListedSplit(rows, id);
      if id != rows[0].0 {
        SameOutcome(s, t, id);
      }
    }
  }

  /** A completed pass over the rows keeps the write discipline and settles each row. */
  lemma {:induction false} RowsEffect(s: Shard, rows: seq<(TxnId, Phase)>)
    requires RowsMatch(s, rows)
    ensures Guarded(s, RowsScript(s, rows))
    ensures RowsResolved(s, ApplyAll(s, RowsScript(s, rows)), rows)
    decreases |rows|
  {
    if rows != [] {
      var ws := RowScript(s, rows[0].0, rows[0].1);
      RowEffect(s, rows[0].0, rows[0].1);
      var t := ApplyAll(s, ws);
      RowsStillMatch(s, t, rows);
      RowsEffect(t, rows[1..]);
      ApplyConcat(s, ws, RowsScript(t, rows[1..]));
      GuardedConcat(s, ws, RowsScript(t, rows[1..]));
      RowsResolvedStep(s, t, ApplyAll(t, RowsScript(t, rows[1..])), rows);
    }
  }

  // ---- What the discipline gives every run ----

  lemma OpGuarded(s: Shard, op: Op)
    requires !op.Prepare? && Runnable(s, op)
    ensures Guarded(s, Script(s, op))
  {
    match op
    case Commit(id) => CommitEffect(s, id);
    case Abort(id) => AbortEffect(s, id);
    case Recover(rows) => RowsEffect(s, rows);
    case Decide(id, commit) => DecisionGuarded(s, id, commit);
  }

  lemma DecisionGuarded(s: Shard, id: TxnId, commit: bool)
    ensures Guarded(s, DecisionScript(s, id, commit))
  {
    var first := [PutDec(id, commit)];
    var t := Apply(s, first[0]);
    assert first[1..] == [] && ApplyAll(s, first) == t;
    CommitEffect(s, id);
    AbortEffect(s, id);
    if id !in s.decs {
      assert Guarded(s, first);
      SameResolve(s, t, id, commit);
      CommitEffect(t, id);
      AbortEffect(t, id);
      GuardedConcat(s, first, ResolveScript(s, id, commit));
    }
  }

  lemma SameResolve(s: Shard, t: Shard, id: TxnId, commit: bool)
    requires t == s.(decs := t.decs)
    ensures ResolveScript(s, id, commit) == ResolveScript(t, id, commit)
  {
    SameFinish(s, t, id);
  }

  /** Prepared never falls back, a resolved record stays resolved, and `Committing`
      can only become `Committed`. */
  predicate Forward(before: Option<Phase>, after: Option<Phase>) {
    match before
    case None => true
    case Some(Preparing) => after.Some?
    case Some(Prepared) => after.Some? && after != Some(Preparing)
    case Some(Committing) => after == Some(Committing) || after == Some(Committed)
    case _ => after == before
  }

  lemma {:induction false} GuardedForward(s: Shard, ws: seq<Write>, id: TxnId)
    requires Guarded(s, ws)
    ensures Forward(PhaseOf(s, id), PhaseOf(ApplyAll(s, ws), id))
    ensures id in s.decs ==> DecisionOf(ApplyAll(s, ws), id) == DecisionOf(s, id)
    decreases |ws|
  {
    if ws != [] {
      GuardedForward(Apply(s, ws[0]), ws[1..], id);
    }
  }

  /** At every crash point of every operation a durable decision is what it was. */
  lemma DecisionNeverFlips(s: Shard, op: Op, n: nat, id: TxnId)
    requires Runnable(s, op) && n <= |Script(s, op)| && id in s.decs
    ensures DecisionOf(ApplyAll(s, Script(s, op)[..n]), id) == DecisionOf(s, id)
  {
    if op.Prepare? {
      PrepareKeeps(s, op.id, op.muts, n);
    } else {
      OpGuarded(s, op);
      GuardedPrefix(s, Script(s, op), n);
      GuardedForward(s, Script(s, op)[..n], id);
    }
  }

  /** Outside a prepare of that transaction, a record only moves forward. */
  lemma PhaseMovesForward(s: Shard, op: Op, n: nat, id: TxnId)
    requires Runnable(s, op) && n <= |Script(s, op)| && !(op.Prepare? && op.id == id)
    ensures Forward(PhaseOf(s, id), PhaseOf(ApplyAll(s, Script(s, op)[..n]), id))
  {
    if op.Prepare? {
      PrepareKeeps(s, op.id, op.muts, n);
    } else {
      OpGuarded(s, op);
      GuardedPrefix(s, Script(s, op), n);
      GuardedForward(s, Script(s, op)[..n], id);
    }
  }

  ghost predicate PrepareWrites(ws: seq<Write>, id: TxnId) {
    forall w :: w in ws ==> (w.PutRec? || w.PutIntent?) && w.id == id
  }

  lemma {:induction false} IntentPutsOf(id: TxnId, muts: seq<Mutation>)
    ensures PrepareWrites(IntentPuts(id, muts), id)
    decreases |muts|
  {
    if muts != [] {
      IntentPutsOf(id, muts[1..]);
    }
  }

  lemma {:induction false} PrepareWritesKeep(s: Shard, ws: seq<Write>, id: TxnId)
    requires PrepareWrites(ws, id)
    ensures var t := ApplyAll(s, ws);
            && t.user == s.user && t.decs == s.decs
            && (forall j :: j != id ==> PhaseOf(t, j) == PhaseOf(s, j) && SameIntents(s, t, j))
    decreases |ws|
  {
    if ws != [] {
      assert ws[0] in ws && PrepareWrites(ws[1..], id);
      PrepareWritesKeep(Apply(s, ws[0]), ws[1..], id);
    }
  }

  /** However far a prepare got, it changed nothing but its own record and intents. */
  lemma PrepareKeeps(s: Shard, id: TxnId, muts: seq<Mutation>, n: nat)
    requires n <= |PrepareScript(id, muts)|
    ensures var t := ApplyAll(s, PrepareScript(id, muts)[..n]);
            && t.user == s.user && t.decs == s.decs
            && (forall j :: j != id ==> PhaseOf(t, j) == PhaseOf(s, j) && SameIntents(s, t, j))
  {
    IntentPutsOf(id, muts);
    assert PrepareWrites(PrepareScript(id, muts)[..n], id);
    PrepareWritesKeep(s, PrepareScript(id, muts)[..n], id);
  }

  /** The last mutation of a key wins. */
  function LastOf(muts: seq<Mutation>, k: Bytes): Option<Option<Bytes>> {
    if muts == [] then None else
      var rest := LastOf(muts[1..], k);
      if rest.Some? then rest else if muts[0].0 == k then Some(muts[0].1) else None
  }

  function IntentOf(s: Shard, id: TxnId, k: Bytes): Option<Option<Bytes>> {
    if (id, k) in s.intents then Some(s.intents[(id, k)]) else None
  }

  lemma {:induction false} IntentPutsInstall(s: Shard, id: TxnId, muts: seq<Mutation>, k: Bytes)
    requires AllAllowed(muts)
    ensures IntentOf(ApplyAll(s, IntentPuts(id, muts)), id, k) ==
            if LastOf(muts, k).Some? then LastOf(muts, k) else IntentOf(s, id, k)
    decreases |muts|
  {
    if muts != [] {
      var ws := IntentPuts(id, muts);
      assert ws[0] == PutIntent(id, muts[0].0, muts[0].1) && ws[1..] == IntentPuts(id, muts[1..]);
      IntentPutsInstall(Apply(s, ws[0]), id, muts[1..], k);
    }
  }

  /** An acknowledged prepare leaves the record `Prepared` and one intent per mutated
      key, holding its last mutation, over what an earlier prepare left. */
  lemma PrepareInstalls(s: Shard, id: TxnId, muts: seq<Mutation>, k: Bytes)
    requires AllAllowed(muts)
    ensures var t := ApplyAll(s, PrepareScript(id, muts));
            && PhaseOf(t, id) == Some(Prepared)
            && IntentOf(t, id, k) == if LastOf(muts, k).Some? then LastOf(muts, k) else IntentOf(s, id, k)
  {
    var first, last := [PutRec(id, Preparing)], [PutRec(id, Prepared)];
    var t := Apply(s, first[0]);
    assert first[1..] == [] && last[1..] == [] && ApplyAll(s, first) == t;
    ApplyConcat(s, first, IntentPuts(id, muts));
    ApplyConcat(s, first + IntentPuts(id, muts), last);
    IntentPutsInstall(t, id, muts, k);
    var u := ApplyAll(t, IntentPuts(id, muts));
    assert ApplyAll(u, last) == Apply(u, last[0]);
  }

  /** The record exists for good once a write of its prepare marked it. */
  lemma {:induction false} PrepareKeepsRecord(s: Shard, ws: seq<Write>, id: TxnId)
    requires PrepareWrites(ws, id) && id in s.recs
    ensures id in ApplyAll(s, ws).recs
    decreases |ws|
  {
    if ws != [] {
      assert ws[0] in ws && PrepareWrites(ws[1..], id);
      PrepareKeepsRecord(Apply(s, ws[0]), ws[1..], id);
    }
  }

  ghost predicate AlwaysForward(s: Shard, op: Op, id: TxnId) {
    forall n: nat :: n <= |Script(s, op)| ==> Forward(PhaseOf(s, id), PhaseOf(ApplyAll(s, Script(s, op)[..n]), id))
  }

  /** A record moves forward at every crash point of an operation exactly when the
      operation is not a late prepare: one of a transaction already past `Preparing`. */
  lemma ForwardExact(s: Shard, op: Op, id: TxnId)
    requires Runnable(s, op)
    ensures AlwaysForward(s, op, id)
       <==> !(op.Prepare? && op.id == id && PhaseOf(s, id).Some? && PhaseOf(s, id) != Some(Preparing))
  {
    if !(op.Prepare? && op.id == id) {
      forall n: nat | n <= |Script(s, op)| ensures Forward(PhaseOf(s, id), PhaseOf(ApplyAll(s, Script(s, op)[..n]), id)) {
        PhaseMovesForward(s, op, n, id);
      }
    } else if PhaseOf(s, id).None? || PhaseOf(s, id) == Some(Preparing) {
      IntentPutsOf(id, op.muts);
      forall n: nat | n <= |Script(s, op)| ensures Forward(PhaseOf(s, id), PhaseOf(ApplyAll(s, Script(s, op)[..n]), id)) {
        if PhaseOf(s, id).Some? { PrepareKeepsRecord(s, Script(s, op)[..n], id); }
      }
    } else {
      var first := Script(s, op)[..1];
      assert first == [PutRec(id, Preparing)] && first[1..] == [];
      assert PhaseOf(ApplyAll(s, first), id) == Some(Preparing);
    }
  }

  /** A late prepare revives an aborted transaction: a commit then applies it. */
  lemma LatePrepareRevives(s: Shard, id: TxnId, muts: seq<Mutation>, k: Bytes)
    requires PhaseOf(s, id) == Some(Aborted) && AllAllowed(muts) && LastOf(muts, k).Some?
    ensures var t := ApplyAll(s, Script(s, Prepare(id, muts)));
            var u := ApplyAll(t, Script(t, Commit(id)));
            && PhaseOf(t, id) == Some(Prepared)
            && PhaseOf(u, id) == Some(Committed) && UserValue(u, k) == LastOf(muts, k).value
  {
    PrepareInstalls(s, id, muts, k);
    CommitEffect(ApplyAll(s, Script(s, Prepare(id, muts))), id);
  }

  /** Intents are no locks: two transactions prepared on one key both commit, and the key
      has the value of the one that commits last. */
  lemma LastCommitWins(s: Shard, id: TxnId, j: TxnId, k: Bytes)
    requires id != j && InDoubt(s, id) && InDoubt(s, j) && (id, k) in s.intents && (j, k) in s.intents
    ensures var t := ApplyAll(s, Script(s, Commit(id)));
            var u := ApplyAll(t, Script(t, Commit(j)));
            && PhaseOf(u, id) == Some(Committed) && PhaseOf(u, j) == Some(Committed)
            && UserValue(t, k) == s.intents[(id, k)] && UserValue(u, k) == s.intents[(j, k)]
  {
    CommitEffect(s, id);
    var t := ApplyAll(s, CommitScript(s, id));
    assert (j, k) in t.intents && t.intents[(j, k)] == s.intents[(j, k)];
    CommitEffect(t, j);
  }

  // ---- User keys change only by commit ----

  predicate CommitChosen(s: Shard, id: TxnId) {
    PhaseOf(s, id) == Some(Committing) || PhaseOf(s, id) == Some(Committed)
  }

  ghost predicate ChangedByCommit(s: Shard, t: Shard, k: Bytes) {
    exists id :: (id, k) in s.intents && CommitChosen(t, id)
  }

  lemma {:induction false} GuardedUserChange(s: Shard, ws: seq<Write>, k: Bytes)
    requires Guarded(s, ws)
    ensures var t := ApplyAll(s, ws); UserValue(t, k) == UserValue(s, k) || ChangedByCommit(s, t, k)
    decreases |ws|
  {
    if ws != [] {
      var next := Apply(s, ws[0]);
      GuardedUserChange(next, ws[1..], k);
      var t := ApplyAll(s, ws);
      if UserValue(next, k) != UserValue(s, k) {
        var id: TxnId :| CommittingIntent(s, id, k, ws[0].val);
        GuardedForward(s, ws, id);
        assert (id, k) in s.intents && CommitChosen(t, id);
      } else if ChangedByCommit(next, t, k) {
        var id: TxnId :| (id, k) in next.intents && CommitChosen(t, id);
        assert (id, k) in s.intents;
      }
    }
  }

  /** At every crash point of every operation, a user key differs from before only if a
      transaction with an intent on it has its commit durably chosen; an aborted
      transaction therefore never changed one. */
  lemma UserKeysChangeOnlyByCommit(s: Shard, op: Op, n: nat, k: Bytes)
    requires Runnable(s, op) && n <= |Script(s, op)|
    ensures var t := ApplyAll(s, Script(s, op)[..n]);
            UserValue(t, k) == UserValue(s, k) || ChangedByCommit(s, t, k)
  {
    if op.Prepare? {
      PrepareKeeps(s, op.id, op.muts, n);
    } else {
      OpGuarded(s, op);
      GuardedPrefix(s, Script(s, op), n);
      GuardedUserChange(s, Script(s, op)[..n], k);
    }
  }

  // ---- Recovery is idempotent and conservative ----

  predicate InDoubt(s: Shard, id: TxnId) {
    PhaseOf(s, id) == Some(Prepared) && id !in s.decs
  }

  /** The ids a recovery over `rows` reports as undecided. */
  function Reported(s: Shard, rows: seq<(TxnId, Phase)>): seq<TxnId> {
    if rows == [] then []
    else (if rows[0].1 == Prepared && rows[0].0 !in s.decs then [rows[0].0] else []) + Reported(s, rows[1..])
  }

  lemma {:induction false} ReportedExactly(s: Shard, rows: seq<(TxnId, Phase)>, id: TxnId)
    requires RowsMatch(s, rows)
    ensures id in Reported(s, rows) <==> Listed(id, rows) && InDoubt(s, id)
    decreases |rows|
  {
    if rows != [] {
      assert RowsMatch(s, rows[1..]) by {
        assert forall i :: 0 <= i < |rows[1..]| ==> rows[1..][i] == rows[i + 1];
      }
      ReportedExactly(s, rows[1..], id);
      ListedSplit(rows, id);
      assert PhaseOf(s, rows[0].0) == Some(rows[0].1);
    }
  }

  /** A completed recovery reports exactly the in-doubt transactions, leaves each of
      them and every decision untouched, and a second recovery writes nothing and
      reports the same set. */
  lemma RecoveryIsIdempotent(s: Shard, rows: seq<(TxnId, Phase)>, again: seq<(TxnId, Phase)>, id: TxnId)
    requires RecRows(s, rows) && RecRows(ApplyAll(s, RowsScript(s, rows)), again)
    ensures var t := ApplyAll(s, RowsScript(s, rows));
            && RowsScript(t, again) == [] && t.decs == s.decs
            && (id in Reported(s, rows) <==> InDoubt(s, id))
            && (id in Reported(t, again) <==> id in Reported(s, rows))
            && (InDoubt(s, id) ==> PhaseOf(t, id) == Some(Prepared) && SameIntents(s, t, id))
  {
    var t := ApplyAll(s, RowsScript(s, rows));
    forall j ensures Outcome(t, j) == PhaseOf(t, j) {
      RecoverySettles(s, rows, j);
    }
    NothingToDo(t, again);
    RecoverySettles(s, rows, id);
    ReportedExactly(s, rows, id);
    ReportedExactly(t, again, id);
    assert InDoubt(s, id) ==> Listed(id, rows);
    assert InDoubt(t, id) ==> Listed(id, again);
  }

  lemma RecoverySettles(s: Shard, rows: seq<(TxnId, Phase)>, id: TxnId)
    requires RecRows(s, rows)
    ensures var t := ApplyAll(s, RowsScript(s, rows));
            && t.decs == s.decs && PhaseOf(t, id) == Outcome(s, id) && Outcome(t, id) == PhaseOf(t, id)
            && (InDoubt(s, id) <==> InDoubt(t, id)) && (InDoubt(s, id) ==> SameIntents(s, t, id))
  {
    RowsEffect(s, rows);
    var t := ApplyAll(s, RowsScript(s, rows));
    assert Listed(id, rows) || id !in s.recs;
    assert PhaseOf(t, id) == Outcome(s, id);
    OutcomeIsFinal(s, t, id);
  }

  lemma OutcomeIsFinal(s: Shard, t: Shard, id: TxnId)
    requires t.decs == s.decs && PhaseOf(t, id) == Outcome(s, id)
    ensures Outcome(t, id) == PhaseOf(t, id) && (InDoubt(s, id) <==> InDoubt(t, id))
  {
  }

  lemma {:induction false} NothingToDo(s: Shard, rows: seq<(TxnId, Phase)>)
    requires RowsMatch(s, rows) && forall j :: Outcome(s, j) == PhaseOf(s, j)
    ensures RowsScript(s, rows) == []
    decreases |rows|
  {
    if rows != [] {
      assert PhaseOf(s, rows[0].0) == Some(rows[0].1);
      assert RowScript(s, rows[0].0, rows[0].1) == [];
      assert RowsMatch(s, rows[1..]) by {
        assert forall i :: 0 <= i < |rows[1..]| ==> rows[1..][i] == rows[i + 1];
      }
      NothingToDo(s, rows[1..]);
    }
  }

  ghost predicate Avoids(ws: seq<Write>, id: TxnId) {
    forall w :: w in ws && !w.PutUser? ==> w.id != id
  }

  lemma {:induction false} AvoidsKeeps(s: Shard, ws: seq<Write>, id: TxnId)
    requires Avoids(ws, id)
    ensures var t := ApplyAll(s, ws);
            PhaseOf(t, id) == PhaseOf(s, id) && DecisionOf(t, id) == DecisionOf(s, id) && SameIntents(s, t, id)
    decreases |ws|
  {
    if ws != [] {
      assert ws[0] in ws && Avoids(ws[1..], id);
      AvoidsKeeps(Apply(s, ws[0]), ws[1..], id);
      AvoidKeeps(s, ws[0], id);
    }
  }

  lemma AvoidKeeps(s: Shard, w: Write, id: TxnId)
    requires !w.PutUser? ==> w.id != id
    ensures var t := Apply(s, w);
            PhaseOf(t, id) == PhaseOf(s, id) && DecisionOf(t, id) == DecisionOf(s, id) && SameIntents(s, t, id)
  {
  }

  lemma {:induction false} ClearAvoids(id: TxnId, keys: seq<Bytes>, j: TxnId)
    requires j != id
    ensures Avoids(Clear(id, keys), j)
    decreases |keys|
  {
    if keys != [] { ClearAvoids(id, keys[1..], j); }
  }

  lemma {:induction false} MaterializeAvoids(s: Shard, id: TxnId, keys: seq<Bytes>, j: TxnId)
    requires forall i :: 0 <= i < |keys| ==> (id, keys[i]) in s.intents
    ensures Avoids(Materialize(s, id, keys), j)
    decreases |keys|
  {
    if keys != [] { MaterializeAvoids(s, id, keys[1..], j); }
  }

  lemma RowAvoids(s: Shard, id: TxnId, phase: Phase, j: TxnId)
    requires j != id || (InDoubt(s, j) && phase == Prepared)
    ensures Avoids(RowScript(s, id, phase), j)
  {
    if j != id {
      CommitAvoids(s, id, j);
      ClearAvoids(id, IntentKeys(s, id), j);
    }
  }

  lemma {:induction false} RowsAvoid(s: Shard, rows: seq<(TxnId, Phase)>, j: TxnId)
    requires RowsMatch(s, rows) && InDoubt(s, j)
    ensures Avoids(RowsScript(s, rows), j)
    decreases |rows|
  {
    if rows != [] {
      var ws := RowScript(s, rows[0].0, rows[0].1);
      assert PhaseOf(s, rows[0].0) == Some(rows[0].1);
      RowAvoids(s, rows[0].0, rows[0].1, j);
      RowEffect(s, rows[0].0, rows[0].1);
      var t := ApplyAll(s, ws);
      RowsStillMatch(s, t, rows);
      AvoidsKeeps(s, ws, j);
      RowsAvoid(t, rows[1..], j);
    }
  }

  /** Wherever recovery crashes, an acknowledged prepare without a durable decision
      keeps its record and every intent. */
  lemma InDoubtIsNeverAltered(s: Shard, rows: seq<(TxnId, Phase)>, n: nat, id: TxnId)
    requires RecRows(s, rows) && n <= |RowsScript(s, rows)| && InDoubt(s, id)
    ensures var t := ApplyAll(s, RowsScript(s, rows)[..n]); InDoubt(t, id) && SameIntents(s, t, id)
  {
    RowsAvoid(s, rows, id);
    assert Avoids(RowsScript(s, rows)[..n], id);
    AvoidsKeeps(s, RowsScript(s, rows)[..n], id);
  }

  // ---- What a completed recovery leaves in the user table ----

  /** Whether recovery materializes the intents of this row. */
  predicate Finishes(s: Shard, row: (TxnId, Phase)) {
    row.1 != Committed && Outcome(s, row.0) == Some(Committed)
  }

  /** The value of `k` when the rows are worked through in order, starting from `v`. */
  function RowsValue(s: Shard, rows: seq<(TxnId, Phase)>, k: Bytes, v: Option<Bytes>): Option<Bytes> {
    if rows == [] then v else
      RowsValue(s, rows[1..], k,
                if Finishes(s, rows[0]) && (rows[0].0, k) in s.intents then s.intents[(rows[0].0, k)] else v)
  }

  lemma RowUser(s: Shard, row: (TxnId, Phase), k: Bytes)
    requires PhaseOf(s, row.0) == Some(row.1)
    ensures UserValue(ApplyAll(s, RowScript(s, row.0, row.1)), k) ==
            if Finishes(s, row) && (row.0, k) in s.intents then s.intents[(row.0, k)] else UserValue(s, k)
  {
    if Finishes(s, row) {
      CommitUser(s, row.0, k);
    } else if Outcome(s, row.0) != Some(row.1) {
      AbortUser(s, row.0, k);
    }
  }

  lemma CommitUser(s: Shard, id: TxnId, k: Bytes)
    requires Undecided(s, id) || PhaseOf(s, id) == Some(Committing)
    ensures UserValue(ApplyAll(s, CommitScript(s, id)), k) == if (id, k) in s.intents then s.intents[(id, k)] else UserValue(s, k)
  {
    CommitEffect(s, id);
    var t := ApplyAll(s, CommitScript(s, id));
    assert UserValue(s.(user := t.user), k) == UserValue(t, k);
  }

  lemma AbortUser(s: Shard, id: TxnId, k: Bytes)
    ensures UserValue(ApplyAll(s, AbortScript(s, id)), k) == UserValue(s, k)
  {
    AbortEffect(s, id);
  }

  lemma {:induction false} SameRowsValue(s: Shard, t: Shard, rows: seq<(TxnId, Phase)>, k: Bytes, v: Option<Bytes>)
    requires t.decs == s.decs
    requires forall i :: 0 <= i < |rows| ==> PhaseOf(t, rows[i].0) == PhaseOf(s, rows[i].0) && SameIntents(s, t, rows[i].0)
    ensures RowsValue(t, rows, k, v) == RowsValue(s, rows, k, v)
    decreases |rows|
  {
    if rows != [] {
      SameOutcome(s, t, rows[0].0);
      assert SameIntents(s, t, rows[0].0);
      forall i | 0 <= i < |rows[1..]|
        ensures PhaseOf(t, rows[1..][i].0) == PhaseOf(s, rows[1..][i].0) && SameIntents(s, t, rows[1..][i].0)
      {
        assert rows[1..][i] == rows[i + 1];
      }
      SameRowsValue(s, t, rows[1..], k, if Finishes(s, rows[0]) && (rows[0].0, k) in s.intents then s.intents[(rows[0].0, k)] else v);
    }
  }

  /** A completed recovery leaves every user key at the intent of the last record, in
      scan order, that it finished and that has one, and else as it was. */
  lemma {:induction false} RecoveredValue(s: Shard, rows: seq<(TxnId, Phase)>, k: Bytes)
    requires RowsMatch(s, rows)
    ensures UserValue(ApplyAll(s, RowsScript(s, rows)), k) == RowsValue(s, rows, k, UserValue(s, k))
    decreases |rows|
  {
    if rows != [] {
      var ws := RowScript(s, rows[0].0, rows[0].1);
      RowEffect(s, rows[0].0, rows[0].1);
      RowUser(s, rows[0], k);
      var t := ApplyAll(s, ws);
      RowsStillMatch(s, t, rows);
      RecoveredValue(t, rows[1..], k);
      ApplyConcat(s, ws, RowsScript(t, rows[1..]));
      forall i | 0 <= i < |rows[1..]|
        ensures PhaseOf(t, rows[1..][i].0) == PhaseOf(s, rows[1..][i].0) && SameIntents(s, t, rows[1..][i].0)
      {
        assert rows[1..][i] == rows[i + 1] && rows[0].0 != rows[i + 1].0;
      }
      SameRowsValue(s, t, rows[1..], k, UserValue(t, k));
    }
  }

  // ---- All or nothing ----

  /** The commit of `id` is durably chosen, or recovery will choose it. */
  predicate Destined(s: Shard, id: TxnId) {
    CommitChosen(s, id) || DecisionOf(s, id) == Some(true)
  }

  /** Another transaction whose commit is settled wants `x` at the same key. */
  ghost predicate Rival(s: Shard, id: TxnId, k: Bytes, x: Option<Bytes>) {
    exists j: TxnId :: j != id && Destined(s, j) && (j, k) in s.intents && s.intents[(j, k)] == x
  }

  /** No commit is newly marked but that of `id` and those the decisions call for. */
  ghost predicate CommitsOnly(ws: seq<Write>, decs: map<TxnId, bool>, id: TxnId) {
    forall w :: w in ws ==>
      !w.PutDec? && (w.PutRec? && w.phase == Committing ==> w.id == id || (w.id in decs && decs[w.id]))
  }

  /** From `s0` on, the commit of `id` is chosen and key `k` is on its way to value `v`:
      the intent is still there to write it, or it has been written, if need be under
      that of another transaction that commits too. */
  ghost predicate OnItsWay(s0: Shard, s: Shard, id: TxnId, k: Bytes, v: Option<Bytes>) {
    && s.decs == s0.decs
    && CommitChosen(s, id) && (PhaseOf(s, id) == Some(Committed) ==> NoIntents(s, id))
    && (forall j: TxnId :: j != id && (j, k) in s.intents ==>
          (j, k) in s0.intents && s.intents[(j, k)] == s0.intents[(j, k)] && (CommitChosen(s, j) ==> Destined(s0, j)))
    && (if (id, k) in s.intents then s.intents[(id, k)] == v
        else UserValue(s, k) == v || Rival(s0, id, k, UserValue(s, k)))
  }

  lemma {:induction false} GuardedOnItsWay(s0: Shard, s: Shard, ws: seq<Write>, id: TxnId, k: Bytes, v: Option<Bytes>)
    requires Guarded(s, ws) && CommitsOnly(ws, s0.decs, id) && OnItsWay(s0, s, id, k, v)
    ensures OnItsWay(s0, ApplyAll(s, ws), id, k, v)
    decreases |ws|
  {
    if ws != [] {
      assert ws[0] in ws && CommitsOnly(ws[1..], s0.decs, id);
      WriteOnItsWay(s0, s, ws[0], id, k, v);
      GuardedOnItsWay(s0, Apply(s, ws[0]), ws[1..], id, k, v);
    }
  }

  lemma WriteOnItsWay(s0: Shard, s: Shard, w: Write, id: TxnId, k: Bytes, v: Option<Bytes>)
    requires Disciplined(s, w) && CommitsOnly([w], s0.decs, id) && OnItsWay(s0, s, id, k, v)
    ensures OnItsWay(s0, Apply(s, w), id, k, v)
  {
    assert w in [w];
    if w.PutUser? {
      UserOnItsWay(s0, s, w, id, k, v);
    }
  }

  lemma UserOnItsWay(s0: Shard, s: Shard, w: Write, id: TxnId, k: Bytes, v: Option<Bytes>)
    requires w.PutUser? && Disciplined(s, w) && OnItsWay(s0, s, id, k, v)
    ensures OnItsWay(s0, Apply(s, w), id, k, v)
  {
    if w.key == k {
      var j: TxnId :| CommittingIntent(s, j, k, w.val);
      if j != id {
        assert Rival(s0, id, k, w.val);
      }
    }
  }

  lemma {:induction false} ClearMarksNone(id: TxnId, keys: seq<Bytes>, decs: map<TxnId, bool>, j: TxnId)
    ensures CommitsOnly(Clear(id, keys), decs, j)
    decreases |keys|
  {
    if keys != [] { ClearMarksNone(id, keys[1..], decs, j); }
  }

  lemma {:induction false} MaterializeMarksNone(s: Shard, id: TxnId, keys: seq<Bytes>, decs: map<TxnId, bool>, j: TxnId)
    requires forall i :: 0 <= i < |keys| ==> (id, keys[i]) in s.intents
    ensures CommitsOnly(Materialize(s, id, keys), decs, j)
    decreases |keys|
  {
    if keys != [] { MaterializeMarksNone(s, id, keys[1..], decs, j); }
  }

  lemma CommitMarks(s: Shard, id: TxnId, j: TxnId)
    requires id == j || DecisionOf(s, id) == Some(true) || PhaseOf(s, id) == Some(Committing)
    ensures CommitsOnly(CommitScript(s, id), s.decs, j)
  {
    var keys := IntentKeys(s, id);
    assert forall i :: 0 <= i < |keys| ==> keys[i] in keys;
    ClearMarksNone(id, keys, s.decs, j);
    MaterializeMarksNone(s, id, keys, s.decs, j);
  }

  lemma {:induction false} RowsMark(s: Shard, rows: seq<(TxnId, Phase)>, j: TxnId)
    requires RowsMatch(s, rows)
    ensures CommitsOnly(RowsScript(s, rows), s.decs, j)
    decreases |rows|
  {
    if rows != [] {
      var id, ws := rows[0].0, RowScript(s, rows[0].0, rows[0].1);
      assert PhaseOf(s, id) == Some(rows[0].1);
      RowEffect(s, id, rows[0].1);
      var t := ApplyAll(s, ws);
      RowsStillMatch(s, t, rows);
      RowsMark(t, rows[1..], j);
      RowMarks(s, id, rows[0].1, j);
    }
  }

  lemma RowMarks(s: Shard, id: TxnId, phase: Phase, j: TxnId)
    requires PhaseOf(s, id) == Some(phase)
    ensures CommitsOnly(RowScript(s, id, phase), s.decs, j)
  {
    if phase == Committing || DecisionOf(s, id) == Some(true) {
      CommitMarks(s, id, j);
    } else {
      ClearMarksNone(id, IntentKeys(s, id), s.decs, j);
    }
  }

  /** One restart: recovery works through `rows` and crashes after `n` durable writes. */
  datatype Restart = Restart(rows: seq<(TxnId, Phase)>, n: nat)

  function AfterRestarts(s: Shard, rs: seq<Restart>): Shard
    requires RestartsOk(s, rs)
    decreases |rs|
  {
    if rs == [] then s else AfterRestarts(ApplyAll(s, RowsScript(s, rs[0].rows)[..rs[0].n]), rs[1..])
  }

  predicate RestartsOk(s: Shard, rs: seq<Restart>)
    decreases |rs|
  {
    rs == [] ||
    (RecRows(s, rs[0].rows) && rs[0].n <= |RowsScript(s, rs[0].rows)|
     && RestartsOk(ApplyAll(s, RowsScript(s, rs[0].rows)[..rs[0].n]), rs[1..]))
  }

  lemma RowsOnItsWay(s0: Shard, s: Shard, rows: seq<(TxnId, Phase)>, n: nat, id: TxnId, k: Bytes, v: Option<Bytes>)
    requires RecRows(s, rows) && n <= |RowsScript(s, rows)| && OnItsWay(s0, s, id, k, v)
    ensures OnItsWay(s0, ApplyAll(s, RowsScript(s, rows)[..n]), id, k, v)
  {
    var ws := RowsScript(s, rows);
    RowsEffect(s, rows);
    GuardedPrefix(s, ws, n);
    RowsMark(s, rows, id);
    assert CommitsOnly(ws[..n], s0.decs, id);
    GuardedOnItsWay(s0, s, ws[..n], id, k, v);
  }

  lemma {:induction false} RestartsOnItsWay(s0: Shard, s: Shard, rs: seq<Restart>, id: TxnId, k: Bytes, v: Option<Bytes>)
    requires RestartsOk(s, rs) && OnItsWay(s0, s, id, k, v)
    ensures OnItsWay(s0, AfterRestarts(s, rs), id, k, v)
    decreases |rs|
  {
    if rs != [] {
      RowsOnItsWay(s0, s, rs[0].rows, rs[0].n, id, k, v);
      RestartsOnItsWay(s0, ApplyAll(s, RowsScript(s, rs[0].rows)[..rs[0].n]), rs[1..], id, k, v);
    }
  }

  lemma RecoveryLands(s0: Shard, s: Shard, rows: seq<(TxnId, Phase)>, id: TxnId, k: Bytes, v: Option<Bytes>)
    requires RecRows(s, rows) && OnItsWay(s0, s, id, k, v)
    ensures var t := ApplyAll(s, RowsScript(s, rows));
            && PhaseOf(t, id) == Some(Committed) && NoIntents(t, id)
            && (UserValue(t, k) == v || Rival(s0, id, k, UserValue(t, k)))
  {
    var ws := RowsScript(s, rows);
    RowsEffect(s, rows);
    assert ws[..|ws|] == ws;
    RowsOnItsWay(s0, s, rows, |ws|, id, k, v);
    assert Listed(id, rows);
    Landed(s0, s, ApplyAll(s, ws), rows, id, k, v);
  }

  lemma Landed(s0: Shard, s: Shard, t: Shard, rows: seq<(TxnId, Phase)>, id: TxnId, k: Bytes, v: Option<Bytes>)
    requires RowsResolved(s, t, rows) && Listed(id, rows) && CommitChosen(s, id) && OnItsWay(s0, t, id, k, v)
    ensures PhaseOf(t, id) == Some(Committed) && NoIntents(t, id)
    ensures UserValue(t, k) == v || Rival(s0, id, k, UserValue(t, k))
  {
  }

  lemma CommitPrefixOnItsWay(s: Shard, id: TxnId, n: nat, k: Bytes, v: Option<Bytes>)
    requires Undecided(s, id) || PhaseOf(s, id) == Some(Committing)
    requires n <= |CommitScript(s, id)| && (Undecided(s, id) ==> n > 0)
    requires v == if (id, k) in s.intents then s.intents[(id, k)] else UserValue(s, k)
    ensures OnItsWay(s, ApplyAll(s, CommitScript(s, id)[..n]), id, k, v)
  {
    var ws := CommitScript(s, id)[..n];
    CommitPrefix(s, id, n);
    if Undecided(s, id) {
      assert ws[0] == PutRec(id, Committing);
      MarkedOnItsWay(s, id, k, v);
      assert CommitsOnly(ws[1..], s.decs, id);
      GuardedOnItsWay(s, Apply(s, ws[0]), ws[1..], id, k, v);
    } else {
      GuardedOnItsWay(s, s, ws, id, k, v);
    }
  }

  lemma CommitPrefix(s: Shard, id: TxnId, n: nat)
    requires n <= |CommitScript(s, id)|
    ensures Guarded(s, CommitScript(s, id)[..n]) && CommitsOnly(CommitScript(s, id)[..n], s.decs, id)
  {
    OpGuarded(s, Commit(id));
    CommitMarks(s, id, id);
    PrefixKept(s, CommitScript(s, id), n, id);
  }

  lemma PrefixKept(s: Shard, ws: seq<Write>, n: nat, id: TxnId)
    requires Guarded(s, ws) && CommitsOnly(ws, s.decs, id) && n <= |ws|
    ensures Guarded(s, ws[..n]) && CommitsOnly(ws[..n], s.decs, id)
  {
    GuardedPrefix(s, ws, n);
  }

  lemma MarkedOnItsWay(s: Shard, id: TxnId, k: Bytes, v: Option<Bytes>)
    requires v == if (id, k) in s.intents then s.intents[(id, k)] else UserValue(s, k)
    ensures OnItsWay(s, Apply(s, PutRec(id, Committing)), id, k, v)
  {
  }

  /** However far a commit got, it touched no other record and no other's intents. */
  lemma CommitTouchesOnlyItself(s: Shard, id: TxnId, n: nat, j: TxnId)
    requires n <= |CommitScript(s, id)| && j != id
    ensures var t := ApplyAll(s, CommitScript(s, id)[..n]);
            PhaseOf(t, j) == PhaseOf(s, j) && DecisionOf(t, j) == DecisionOf(s, j) && SameIntents(s, t, j)
  {
    CommitAvoids(s, id, j);
    assert Avoids(CommitScript(s, id)[..n], j);
    AvoidsKeeps(s, CommitScript(s, id)[..n], j);
  }

  lemma CommitAvoids(s: Shard, id: TxnId, j: TxnId)
    requires j != id
    ensures Avoids(CommitScript(s, id), j)
  {
    var keys := IntentKeys(s, id);
    assert forall i :: 0 <= i < |keys| ==> keys[i] in keys;
    ClearAvoids(id, keys, j);
    MaterializeAvoids(s, id, keys, j);
  }

  lemma {:induction false} RestartsKeepInDoubt(s: Shard, rs: seq<Restart>, j: TxnId)
    requires RestartsOk(s, rs) && InDoubt(s, j)
    ensures InDoubt(AfterRestarts(s, rs), j) && SameIntents(s, AfterRestarts(s, rs), j)
    decreases |rs|
  {
    if rs != [] {
      InDoubtIsNeverAltered(s, rs[0].rows, rs[0].n, j);
      RestartsKeepInDoubt(ApplyAll(s, RowsScript(s, rs[0].rows)[..rs[0].n]), rs[1..], j);
    }
  }

  /** The state after a commit crashed behind `n` writes, restarts crashed as well, and
      a last recovery completed. */
  function Settled(s: Shard, id: TxnId, n: nat, rs: seq<Restart>, rows: seq<(TxnId, Phase)>): Shard
    requires n <= |CommitScript(s, id)| && RestartsOk(ApplyAll(s, CommitScript(s, id)[..n]), rs)
  {
    var crashed := AfterRestarts(ApplyAll(s, CommitScript(s, id)[..n]), rs);
    ApplyAll(crashed, RowsScript(crashed, rows))
  }

  /** Once `Committing` is durable, however the commit and any number of recoveries
      crash, the first recovery to complete leaves the transaction `Committed`, its
      intents gone, and every key at exactly the prepared mutation (or unchanged if it
      prepared none), unless another transaction with an intent on that key has its
      commit settled too; then the key has the value of one of them. */
  lemma CommitIsAllOrNothing(s: Shard, id: TxnId, n: nat, rs: seq<Restart>, rows: seq<(TxnId, Phase)>, k: Bytes)
    requires Undecided(s, id) || PhaseOf(s, id) == Some(Committing)
    requires n <= |CommitScript(s, id)| && (Undecided(s, id) ==> n > 0)
    requires RestartsOk(ApplyAll(s, CommitScript(s, id)[..n]), rs)
    requires RecRows(AfterRestarts(ApplyAll(s, CommitScript(s, id)[..n]), rs), rows)
    ensures var t := Settled(s, id, n, rs, rows);
            && PhaseOf(t, id) == Some(Committed) && NoIntents(t, id)
            && (UserValue(t, k) == (if (id, k) in s.intents then s.intents[(id, k)] else UserValue(s, k))
                || Rival(s, id, k, UserValue(t, k)))
  {
    var v := if (id, k) in s.intents then s.intents[(id, k)] else UserValue(s, k);
    CommitPrefixOnItsWay(s, id, n, k, v);
    var t := ApplyAll(s, CommitScript(s, id)[..n]);
    RestartsOnItsWay(s, t, rs, id, k, v);
    RecoveryLands(s, AfterRestarts(t, rs), rows, id, k, v);
  }

  /** Throughout, every other transaction still in doubt keeps its record and intents. */
  lemma CommitSparesInDoubt(s: Shard, id: TxnId, n: nat, rs: seq<Restart>, rows: seq<(TxnId, Phase)>, j: TxnId)
    requires n <= |CommitScript(s, id)| && RestartsOk(ApplyAll(s, CommitScript(s, id)[..n]), rs)
    requires RecRows(AfterRestarts(ApplyAll(s, CommitScript(s, id)[..n]), rs), rows)
    requires j != id && InDoubt(s, j)
    ensures InDoubt(Settled(s, id, n, rs, rows), j) && SameIntents(s, Settled(s, id, n, rs, rows), j)
  {
    var t := ApplyAll(s, CommitScript(s, id)[..n]);
    CommitTouchesOnlyItself(s, id, n, j);
    RestartsKeepInDoubt(t, rs, j);
    var crashed := AfterRestarts(t, rs);
    var ws := RowsScript(crashed, rows);
    assert ws[..|ws|] == ws;
    InDoubtIsNeverAltered(crashed, rows, |ws|, j);
  }
}
