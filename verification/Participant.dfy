/** The participant's operations on the byte store, each tied to the script of durable
    writes it issues. */
module Participant {
  import opened ByteStrings
  import opened Integers
  import opened SystemKeys
  import opened TwoPhase
  import opened TxnKeys

  class Participant {
    /** Latest committed value of every key. */
    var kv: map<Bytes, Bytes>
    /** The tables at the start and the durable writes since, in order. */
    ghost const base: Shard
    ghost var journal: seq<Write>

    ghost function State(): Shard
      reads this
    {
      ApplyAll(base, journal)
    }

    ghost predicate Valid()
      reads this
    {
      Represents(kv, State()) && IntentsAllowed(State())
    }

    constructor (stored: map<Bytes, Bytes>, ghost s: Shard)
      requires Represents(stored, s) && IntentsAllowed(s)
      ensures Valid() && kv == stored && State() == s && journal == []
    {
      kv := stored;
      base := s;
      journal := [];
    }

    /** One durable write. */
    method Log(w: Write)
      requires Valid() && (w.PutUser? ==> !IsTxnSystemKey(w.key))
      requires w.PutIntent? ==> !ReservedMutation((w.key, w.val))
      modifies this
      ensures Valid() && journal == old(journal) + [w] && State() == Apply(old(State()), w)
    {
      WriteRepresented(kv, State(), w);
      ApplyConcat(base, journal, [w]);
      assert [w][1..] == [];
      ghost var s := State();
      assert ApplyAll(s, [w]) == Apply(s, w);
      var (key, val) := Encode(w);
      kv := match val { case Some(v) => kv[key := v] case None => kv - {key} };
      journal := journal + [w];
    }

    method ReadState(id: TxnId) returns (r: Option<Phase>)
      requires Valid()
      ensures r == PhaseOf(State(), id)
    {
      assert At(kv, RecKey(id)) == RecRaw(State(), id);
      if RecKey(id) !in kv {
        return None;
      }
      r := FromStateByte(kv[RecKey(id)][0]);
      assert r == Some(State().recs[id]);
    }

    method ReadDecision(id: TxnId) returns (r: Option<bool>)
      requires Valid()
      ensures r == DecisionOf(State(), id)
    {
      assert At(kv, DecKey(id)) == DecRaw(State(), id);
      if DecKey(id) !in kv {
        return None;
      }
      r := Some(kv[DecKey(id)][0] == 1);
    }

    /** False is the error return: a refused mutation leaves the record `Preparing`. */
    method Prepare(id: TxnId, muts: seq<Mutation>) returns (ok: bool)
      requires Valid()
      modifies this
      ensures Valid() && journal == old(journal) + PrepareScript(id, muts)
      ensures ok == AllAllowed(muts)
    {
      ghost var script := PrepareScript(id, muts);
      Log(PutRec(id, Preparing));
      assert muts[0..] == muts;
      for i := 0 to |muts|
        invariant Valid() && AllAllowed(muts) == AllAllowed(muts[i..])
        invariant journal + PrepareRest(id, muts[i..]) == old(journal) + script
      {
        assert muts[i..][0] == muts[i] && muts[i..][1..] == muts[i + 1..];
        if ReservedMutation(muts[i]) {
          return false;
        }
        PrepareRestStep(id, muts[i..]);
        Log(PutIntent(id, muts[i].0, muts[i].1));
      }
      Log(PutRec(id, Prepared));
      ok := true;
    }

    /** User keys of the rows in the intent range of `id`. */
    method ScanIntents(id: TxnId) returns (keys: seq<Bytes>)
      requires Valid()
      ensures keys == IntentKeys(State(), id)
    {
      IntentScan(kv, State(), id);
      var rows := KeysUnder(kv, IntentScanPrefix(id));
      keys := StripAll(id, rows, IntentKeys(State(), id));
    }

    /** The intents of `id`, decoded from the scan of its key range. */
    method LoadIntents(id: TxnId) returns (muts: seq<Mutation>)
      requires Valid()
      ensures muts == IntentList(State(), id, IntentKeys(State(), id))
    {
      var keys := ScanIntents(id);
      assert forall i :: 0 <= i < |keys| ==> keys[i] in keys;
      muts := DecodeAll(kv, State(), id, keys);
    }

    /** Writes each mutation to its user key; refuses reserved keys as the public API does. */
    method ApplyMutations(muts: seq<Mutation>) returns (ok: bool)
      requires Valid() && AllAllowed(muts)
      modifies this
      ensures Valid() && ok && journal == old(journal) + UserPuts(muts)
    {
      assert muts[0..] == muts;
      for i := 0 to |muts|
        invariant Valid() && AllAllowed(muts[i..])
        invariant journal + UserPuts(muts[i..]) == old(journal) + UserPuts(muts)
      {
        assert muts[i..][0] == muts[i] && muts[i..][1..] == muts[i + 1..];
        if ReservedMutation(muts[i]) {
          return false;
        }
        Log(PutUser(muts[i].0, muts[i].1));
        assert UserPuts(muts[i..]) == [PutUser(muts[i].0, muts[i].1)] + UserPuts(muts[i + 1..]);
      }
      ok := true;
    }

    method ClearIntents(id: TxnId)
      requires Valid()
      modifies this
      ensures Valid() && journal == old(journal) + Clear(id, IntentKeys(old(State()), id))
    {
      var keys := ScanIntents(id);
      ClearKeys(id, keys);
    }

    method ClearKeys(id: TxnId, keys: seq<Bytes>)
      requires Valid()
      modifies this
      ensures Valid() && journal == old(journal) + Clear(id, keys)
    {
      assert keys[0..] == keys;
      for i := 0 to |keys|
        invariant Valid() && journal + Clear(id, keys[i..]) == old(journal) + Clear(id, keys)
      {
        assert keys[i..][0] == keys[i] && keys[i..][1..] == keys[i + 1..];
        Regroup(journal, DelIntent(id, keys[i]), Clear(id, keys[i + 1..]));
        Log(DelIntent(id, keys[i]));
      }
    }

    /** Writes every intent of `id` to its user key. */
    method MaterializeIntents(id: TxnId)
      requires Valid() && PhaseOf(State(), id) == Some(Committing)
      modifies this
      ensures Valid() && journal == old(journal) + MaterializeAll(old(State()), id)
      ensures IntentKeys(State(), id) == IntentKeys(old(State()), id)
    {
      ghost var s := State();
      var muts := LoadIntents(id);
      assert forall i :: 0 <= i < |IntentKeys(s, id)| ==> IntentKeys(s, id)[i] in IntentKeys(s, id);
      IntentListPuts(s, id, IntentKeys(s, id));
      if muts != [] {
        var ok := ApplyMutations(muts);
      }
      assert journal == old(journal) + MaterializeAll(s, id);
      Materialized(base, old(journal), s, id);
    }

    /** Materializes the intents, clears them and marks the record. */
    method FinishCommit(id: TxnId)
      requires Valid() && PhaseOf(State(), id) == Some(Committing)
      modifies this
      ensures Valid() && journal == old(journal) + FinishScript(old(State()), id)
    {
      ghost var s := State();
      MaterializeIntents(id);
      ClearIntents(id);
      Log(PutRec(id, Committed));
      FinishParts(old(journal), s, id);
    }

    method Commit(id: TxnId) returns (ok: bool)
      requires Valid()
      modifies this
      ensures Valid() && journal == old(journal) + CommitScript(old(State()), id)
      ensures ok == (PhaseOf(old(State()), id) != Some(Aborted))
    {
      var state := ReadState(id);
      ghost var s := State();
      if state == Some(Committed) {
        assert journal == old(journal) + [];
        return true;
      }
      if state == Some(Aborted) {
        assert journal == old(journal) + [];
        return false;
      }
      if state != Some(Committing) {
        Log(PutRec(id, Committing));
      }
      SameFinish(s, State(), id);
      FinishCommit(id);
      ok := true;
    }

    method Abort(id: TxnId) returns (ok: bool)
      requires Valid()
      modifies this
      ensures Valid() && journal == old(journal) + AbortScript(old(State()), id)
      ensures ok == !CommitChosen(old(State()), id)
    {
      var state := ReadState(id);
      if state == Some(Aborted) {
        assert journal == old(journal) + [];
        return true;
      }
      if state == Some(Committed) || state == Some(Committing) {
        assert journal == old(journal) + [];
        return false;
      }
      ClearIntents(id);
      Log(PutRec(id, Aborted));
      ok := true;
    }

    /** Drives a local undecided record to the decided outcome. */
    method Resolve(id: TxnId, commit: bool) returns (ok: bool)
      requires Valid()
      modifies this
      ensures Valid() && journal == old(journal) + ResolveScript(old(State()), id, commit) && ok
    {
      var state := ReadState(id);
      if state == Some(Preparing) || state == Some(Prepared) {
        if commit {
          ok := Commit(id);
        } else {
          ok := Abort(id);
        }
      } else {
        assert journal == old(journal) + [];
        ok := true;
      }
    }

    method Decide(id: TxnId, commit: bool) returns (ok: bool)
      requires Valid()
      modifies this
      ensures Valid() && journal == old(journal) + DecisionScript(old(State()), id, commit)
      ensures ok == (DecisionOf(old(State()), id) != Some(!commit))
    {
      var prev := ReadDecision(id);
      ghost var s := State();
      if prev.Some? && prev.value != commit {
        assert journal == old(journal) + [];
        return false;
      }
      if prev.None? {
        Log(PutDec(id, commit));
        SameResolve(s, State(), id, commit);
      }
      ok := Resolve(id, commit);
    }

    /** The record table as the recovery scan sees it: keys of the wrong length are skipped. */
    method ScanRecords() returns (rows: seq<(TxnId, Phase)>)
      requires Valid()
      ensures RecRows(State(), rows)
    {
      ghost var s := State();
      var keys := KeysUnder(kv, TXN_REC_PREFIX);
      SortedDistinct(keys);
      rows := [];
      for i := 0 to |keys|
        invariant RowsMatch(s, rows)
        invariant forall r :: 0 <= r < |rows| ==> RecKey(rows[r].0) in keys[..i]
        invariant forall id :: RecKey(id) in keys[..i] ==> Listed(id, rows)
      {
        assert keys[i] in keys && keys[i] !in keys[..i];
        var id := ParseRecTxnId(keys[i]);
        ghost var was := rows;
        if id.Some? {
          RecordRead(kv, s, id.value);
          var phase := FromStateByte(kv[keys[i]][0]);
          rows := rows + [(id.value, phase.value)];
          assert rows[|rows| - 1].0 == id.value;
        }
        MoreListed(keys, i, was, rows, id);
      }
      assert keys[..|keys|] == keys;
      forall id | id in s.recs ensures Listed(id, rows) {
        RecordScanned(kv, s, id);
      }
    }

    /** Settles every incomplete record and returns the ones left in doubt. */
    method Recover() returns (rows: seq<(TxnId, Phase)>, undecided: seq<TxnId>)
      requires Valid()
      modifies this
      ensures Valid() && RecRows(old(State()), rows)
      ensures journal == old(journal) + RowsScript(old(State()), rows)
      ensures undecided == Reported(old(State()), rows)
    {
      rows := ScanRecords();
      undecided := RecoverRows(rows);
    }

    method RecoverRows(rows: seq<(TxnId, Phase)>) returns (undecided: seq<TxnId>)
      requires Valid() && RowsMatch(State(), rows)
      modifies this
      ensures Valid() && journal == old(journal) + RowsScript(old(State()), rows)
      ensures undecided == Reported(old(State()), rows)
    {
      ghost var goal, report := journal + RowsScript(State(), rows), Reported(State(), rows);
      undecided := [];
      assert rows[0..] == rows;
      for i := 0 to |rows|
        invariant Valid() && OnCourse(base, journal, rows[i..], undecided, goal, report)
      {
        OnCourseStep(base, journal, rows, i, undecided, goal, report);
        var left := RecoverRow(rows[i].0, rows[i].1);
        if left {
          undecided := undecided + [rows[i].0];
        }
      }
    }

    method RecoverRow(id: TxnId, phase: Phase) returns (left: bool)
      requires Valid() && PhaseOf(State(), id) == Some(phase)
      modifies this
      ensures Valid() && journal == old(journal) + RowScript(old(State()), id, phase)
      ensures left == (phase == Prepared && id !in old(State()).decs)
    {
      left := false;
      if phase == Committing {
        var ok := Commit(id);
      } else if phase == Preparing || phase == Prepared {
        var decision := ReadDecision(id);
        if decision == Some(true) {
          var ok := Commit(id);
        } else if decision == Some(false) || phase == Preparing {
          var ok := Abort(id);
        } else {
          assert journal == old(journal) + [];
          left := true;
        }
      } else {
        assert journal == old(journal) + [];
      }
    }
  }

  /** What is left of a prepare after some of its mutations. */
  ghost function PrepareRest(id: TxnId, muts: seq<Mutation>): seq<Write> {
    IntentPuts(id, muts) + if AllAllowed(muts) then [PutRec(id, Prepared)] else []
  }

  lemma PrepareRestStep(id: TxnId, muts: seq<Mutation>)
    requires muts != [] && !ReservedMutation(muts[0])
    ensures PrepareRest(id, muts) == [PutIntent(id, muts[0].0, muts[0].1)] + PrepareRest(id, muts[1..])
  {
  }

  ghost function IntentList(s: Shard, id: TxnId, keys: seq<Bytes>): seq<Mutation> {
    if keys == [] then []
    else (if (id, keys[0]) in s.intents then [(keys[0], s.intents[(id, keys[0])])] else []) + IntentList(s, id, keys[1..])
  }

  lemma IntentListStep(s: Shard, id: TxnId, keys: seq<Bytes>, i: nat)
    requires i < |keys| && (id, keys[i]) in s.intents
    ensures IntentList(s, id, keys[i..]) == [(keys[i], s.intents[(id, keys[i])])] + IntentList(s, id, keys[i + 1..])
  {
  }

  ghost function UserPuts(muts: seq<Mutation>): seq<Write> {
    if muts == [] then [] else [PutUser(muts[0].0, muts[0].1)] + UserPuts(muts[1..])
  }

  lemma {:induction false} IntentListPuts(s: Shard, id: TxnId, keys: seq<Bytes>)
    requires IntentsAllowed(s) && forall i :: 0 <= i < |keys| ==> (id, keys[i]) in s.intents
    ensures UserPuts(IntentList(s, id, keys)) == Materialize(s, id, keys) && AllAllowed(IntentList(s, id, keys))
    decreases |keys|
  {
    if keys != [] {
      IntentListPuts(s, id, keys[1..]);
      var muts := IntentList(s, id, keys);
      assert muts[0] == (keys[0], s.intents[(id, keys[0])]) && muts[1..] == IntentList(s, id, keys[1..]);
    }
  }

  lemma RecordRead(kv: map<Bytes, Bytes>, s: Shard, id: TxnId)
    requires Represents(kv, s) && RecKey(id) in kv
    ensures id in s.recs && |kv[RecKey(id)]| > 0 && FromStateByte(kv[RecKey(id)][0]) == Some(s.recs[id])
  {
    assert At(kv, RecKey(id)) == RecRaw(s, id);
  }

  lemma RecordScanned(kv: map<Bytes, Bytes>, s: Shard, id: TxnId)
    requires Represents(kv, s) && id in s.recs
    ensures RecKey(id) in KeysUnder(kv, TXN_REC_PREFIX)
  {
    assert At(kv, RecKey(id)) == RecRaw(s, id);
    assert HasPrefix(RecKey(id), TXN_REC_PREFIX);
  }

  lemma MoreListed(keys: seq<Bytes>, i: nat, was: seq<(TxnId, Phase)>, rows: seq<(TxnId, Phase)>, id: Option<TxnId>)
    requires i < |keys| && id == ParseRecTxnId(keys[i])
    requires was <= rows && (id.Some? ==> Listed(id.value, rows))
    requires forall j :: RecKey(j) in keys[..i] ==> Listed(j, was)
    ensures forall j :: RecKey(j) in keys[..i + 1] ==> Listed(j, rows)
  {
    forall j | RecKey(j) in keys[..i + 1] ensures Listed(j, rows) {
      if RecKey(j) in keys[..i] {
        var r :| 0 <= r < |was| && was[r].0 == j;
        assert rows[r].0 == j;
      } else {
        assert RecKey(j) == keys[i];
        assert HasPrefix(RecKey(j), TXN_REC_PREFIX);
        KeysApart(j, id.value, [], []);
      }
    }
  }

  lemma Regroup(j: seq<Write>, w: Write, rest: seq<Write>)
    ensures (j + [w]) + rest == j + ([w] + rest)
  {
  }

  lemma Stripped(id: TxnId, k: Bytes)
    ensures UserKeyFromIntentKey(id, IntentScanPrefix(id) + k) == Some(k)
  {
  }

  method StripAll(id: TxnId, rows: seq<Bytes>, ghost keys: seq<Bytes>) returns (out: seq<Bytes>)
    requires rows == Prefixed(IntentScanPrefix(id), keys)
    ensures out == keys
  {
    out := [];
    for i := 0 to |rows|
      invariant out == keys[..i]
    {
      var key := UserKeyFromIntentKey(id, rows[i]);
      Stripped(id, keys[i]);
      out := out + [key.value];
    }
  }

  method DecodeAll(kv: map<Bytes, Bytes>, ghost s: Shard, id: TxnId, keys: seq<Bytes>) returns (muts: seq<Mutation>)
    requires IntentsStored(kv, s) && forall i :: 0 <= i < |keys| ==> (id, keys[i]) in s.intents
    ensures muts == IntentList(s, id, keys)
  {
    muts := [];
    assert keys[0..] == keys;
    for i := 0 to |keys|
      invariant muts + IntentList(s, id, keys[i..]) == IntentList(s, id, keys)
    {
      assert At(kv, IntentKey(id, keys[i])) == IntentRaw(s, id, keys[i]);
      IntentListStep(s, id, keys, i);
      var val := DecodeIntentValue(kv[IntentKey(id, keys[i])]);
      assert val == Some(s.intents[(id, keys[i])]);
      muts := muts + [(keys[i], val.value)];
    }
  }

  ghost function MaterializeAll(s: Shard, id: TxnId): seq<Write> {
    assert forall i :: 0 <= i < |IntentKeys(s, id)| ==> IntentKeys(s, id)[i] in IntentKeys(s, id);
    Materialize(s, id, IntentKeys(s, id))
  }

  lemma FinishParts(j: seq<Write>, s: Shard, id: TxnId)
    ensures j + MaterializeAll(s, id) + Clear(id, IntentKeys(s, id)) + [PutRec(id, Committed)] == j + FinishScript(s, id)
  {
  }

  /** Materializing leaves the record and the intents as they were. */
  lemma Materialized(base: Shard, j: seq<Write>, s: Shard, id: TxnId)
    requires s == ApplyAll(base, j) && PhaseOf(s, id) == Some(Committing)
    ensures IntentKeys(ApplyAll(base, j + MaterializeAll(s, id)), id) == IntentKeys(s, id)
  {
    assert forall i :: 0 <= i < |IntentKeys(s, id)| ==> IntentKeys(s, id)[i] in IntentKeys(s, id);
    MaterializeEffect(s, s, id, IntentKeys(s, id));
    ApplyConcat(base, j, MaterializeAll(s, id));
  }

  lemma RowAdvance(t: Shard, rows: seq<(TxnId, Phase)>)
    requires rows != [] && RowsMatch(t, rows)
    ensures var u := ApplyAll(t, RowScript(t, rows[0].0, rows[0].1));
            u.decs == t.decs && RowsMatch(u, rows[1..])
  {
    assert PhaseOf(t, rows[0].0) == Some(rows[0].1);
    RowEffect(t, rows[0].0, rows[0].1);
    RowsStillMatch(t, ApplyAll(t, RowScript(t, rows[0].0, rows[0].1)), rows);
  }

  /** One row of recovery, seen from the journal. */
  lemma RowStep(base: Shard, j: seq<Write>, rows: seq<(TxnId, Phase)>)
    requires rows != [] && RowsMatch(ApplyAll(base, j), rows)
    ensures PhaseOf(ApplyAll(base, j), rows[0].0) == Some(rows[0].1)
    ensures var t := ApplyAll(base, j);
            var ws := RowScript(t, rows[0].0, rows[0].1);
            var u := ApplyAll(base, j + ws);
            && RowsMatch(u, rows[1..])
            && j + RowsScript(t, rows) == (j + ws) + RowsScript(u, rows[1..])
            && Reported(t, rows[1..]) == Reported(u, rows[1..])
  {
    var t := ApplyAll(base, j);
    var ws := RowScript(t, rows[0].0, rows[0].1);
    assert PhaseOf(t, rows[0].0) == Some(rows[0].1);
    RowAdvance(t, rows);
    ApplyConcat(base, j, ws);
    var u := ApplyAll(t, ws);
    SameReported(t, u, rows[1..]);
    RowsScriptStep(j, t, rows);
  }

  /** `rows` are still to be recovered on the way to the whole pass's writes and report. */
  ghost predicate OnCourse(base: Shard, j: seq<Write>, rows: seq<(TxnId, Phase)>, undecided: seq<TxnId>,
                           goal: seq<Write>, report: seq<TxnId>)
  {
    var t := ApplyAll(base, j);
    RowsMatch(t, rows) && j + RowsScript(t, rows) == goal && undecided + Reported(t, rows) == report
  }

  lemma OnCourseStep(base: Shard, j: seq<Write>, rows: seq<(TxnId, Phase)>, i: nat, undecided: seq<TxnId>,
                     goal: seq<Write>, report: seq<TxnId>)
    requires i < |rows| && OnCourse(base, j, rows[i..], undecided, goal, report)
    ensures var t := ApplyAll(base, j);
            var id, phase := rows[i].0, rows[i].1;
            && PhaseOf(t, id) == Some(phase)
            && OnCourse(base, j + RowScript(t, id, phase), rows[i + 1..],
                        if phase == Prepared && id !in t.decs then undecided + [id] else undecided, goal, report)
  {
    assert rows[i..][0] == rows[i] && rows[i..][1..] == rows[i + 1..];
    RowStep(base, j, rows[i..]);
    ReportedStep(ApplyAll(base, j), rows[i..], undecided);
  }

  lemma ReportedStep(t: Shard, rows: seq<(TxnId, Phase)>, undecided: seq<TxnId>)
    requires rows != []
    ensures undecided + Reported(t, rows)
         == (if rows[0].1 == Prepared && rows[0].0 !in t.decs then undecided + [rows[0].0] else undecided) + Reported(t, rows[1..])
  {
  }

  lemma RowsScriptStep(j: seq<Write>, t: Shard, rows: seq<(TxnId, Phase)>)
    requires rows != []
    ensures var ws := RowScript(t, rows[0].0, rows[0].1);
            j + RowsScript(t, rows) == (j + ws) + RowsScript(ApplyAll(t, ws), rows[1..])
  {
    var ws := RowScript(t, rows[0].0, rows[0].1);
    var rest := RowsScript(ApplyAll(t, ws), rows[1..]);
    assert RowsScript(t, rows) == ws + rest;
    assert j + (ws + rest) == (j + ws) + rest;
  }

  lemma {:induction false} SameReported(s: Shard, t: Shard, rows: seq<(TxnId, Phase)>)
    requires s.decs == t.decs
    ensures Reported(s, rows) == Reported(t, rows)
    decreases |rows|
  {
    if rows != [] { SameReported(s, t, rows[1..]); }
  }
}
