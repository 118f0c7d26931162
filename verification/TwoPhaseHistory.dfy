/** What an acknowledged prepare is good for along whole runs: its intents stay until the
    transaction is doomed, or go with their value in the user key. */
module TwoPhaseHistory {
  import opened ByteStrings
  import opened SystemKeys
  import opened TwoPhase
  import opened TwoPhaseSystem

  // ---- Clearing for a decided commit happens under its mark ----

  ghost predicate Marked(s: Shard, ws: seq<Write>, id: TxnId)
    decreases |ws|
  {
    ws == [] ||
    ((ws[0].DelIntent? && ws[0].id == id ==> PhaseOf(s, id) == Some(Committing)) && Marked(Apply(s, ws[0]), ws[1..], id))
  }

  ghost predicate Clears(ws: seq<Write>, id: TxnId) {
    exists w :: w in ws && w.DelIntent? && w.id == id
  }

  lemma {:induction false} NothingCleared(s: Shard, ws: seq<Write>, id: TxnId)
    requires !Clears(ws, id)
    ensures Marked(s, ws, id)
    decreases |ws|
  {
    if ws != [] {
      assert ws[0] in ws;
      NothingCleared(Apply(s, ws[0]), ws[1..], id);
    }
  }

  lemma {:induction false} MarkedConcat(s: Shard, a: seq<Write>, b: seq<Write>, id: TxnId)
    requires Marked(s, a, id) && Marked(ApplyAll(s, a), b, id)
    ensures Marked(s, a + b, id)
    decreases |a|
  {
    if a == [] {
      assert a + b == b;
    } else {
      MarkedConcat(Apply(s, a[0]), a[1..], b, id);
      assert (a + b)[1..] == a[1..] + b;
    }
  }

  lemma {:induction false} UnderTheMark(s: Shard, ws: seq<Write>, id: TxnId)
    requires PhaseOf(s, id) == Some(Committing) && forall w :: w in ws ==> !w.PutRec?
    ensures Marked(s, ws, id)
    decreases |ws|
  {
    if ws != [] {
      assert ws[0] in ws;
      UnderTheMark(Apply(s, ws[0]), ws[1..], id);
    }
  }

  lemma {:induction false} ClearKinds(id: TxnId, keys: seq<Bytes>)
    ensures forall w :: w in Clear(id, keys) ==> w.DelIntent? && w.id == id
    decreases |keys|
  {
    if keys != [] { ClearKinds(id, keys[1..]); }
  }

  lemma {:induction false} MaterializeKinds(s: Shard, id: TxnId, keys: seq<Bytes>)
    requires forall i :: 0 <= i < |keys| ==> (id, keys[i]) in s.intents
    ensures forall w :: w in Materialize(s, id, keys) ==> w.PutUser?
    decreases |keys|
  {
    if keys != [] { MaterializeKinds(s, id, keys[1..]); }
  }

  lemma FinishKinds(s: Shard, id: TxnId) returns (body: seq<Write>)
    ensures FinishScript(s, id) == body + [PutRec(id, Committed)]
    ensures forall w :: w in body ==> w.PutUser? || (w.DelIntent? && w.id == id)
  {
    var keys := IntentKeys(s, id);
    assert forall i :: 0 <= i < |keys| ==> keys[i] in keys;
    MaterializeKinds(s, id, keys);
    ClearKinds(id, keys);
    body := Materialize(s, id, keys) + Clear(id, keys);
  }

  lemma FinishMarked(s: Shard, t: Shard, id: TxnId)
    requires PhaseOf(t, id) == Some(Committing)
    ensures Marked(t, FinishScript(s, id), id)
  {
    var body := FinishKinds(s, id);
    UnderTheMark(t, body, id);
    NothingCleared(ApplyAll(t, body), [PutRec(id, Committed)], id);
    MarkedConcat(t, body, [PutRec(id, Committed)], id);
  }

  lemma CommitMarked(s: Shard, id: TxnId, j: TxnId)
    ensures Marked(s, CommitScript(s, id), j)
  {
    var body := FinishKinds(s, id);
    if id != j {
      assert !Clears(CommitScript(s, id), j);
      NothingCleared(s, CommitScript(s, id), j);
    } else if PhaseOf(s, id) == Some(Committing) {
      FinishMarked(s, s, id);
    } else if Undecided(s, id) {
      var first := [PutRec(id, Committing)];
      var t := Apply(s, first[0]);
      assert first[1..] == [] && ApplyAll(s, first) == t;
      FinishMarked(s, t, id);
      MarkedConcat(s, first, FinishScript(s, id), id);
    }
  }

  lemma AbortMarked(s: Shard, id: TxnId, j: TxnId)
    requires id != j
    ensures Marked(s, AbortScript(s, id), j)
  {
    ClearKinds(id, IntentKeys(s, id));
    NothingCleared(s, AbortScript(s, id), j);
  }

  lemma DecisionMarked(s: Shard, id: TxnId, commit: bool, j: TxnId)
    requires commit || id != j
    ensures Marked(s, DecisionScript(s, id, commit), j)
  {
    var first := [PutDec(id, commit)];
    var t := Apply(s, first[0]);
    assert first[1..] == [] && ApplyAll(s, first) == t;
    SameResolve(s, t, id, commit);
    if commit {
      CommitMarked(s, id, j);
      CommitMarked(t, id, j);
    } else {
      AbortMarked(s, id, j);
      AbortMarked(t, id, j);
    }
    MarkedConcat(s, first, ResolveScript(t, id, commit), j);
  }

  /** A decided commit is never aborted by recovery. */
  lemma RowMarked(g: Ledger, i: nat, s: Shard, id: TxnId, phase: Phase, j: TxnId)
    requires ShardOk(g, i, s) && PhaseOf(s, id) == Some(phase) && CannotAbort(g, i, j)
    ensures Marked(s, RowScript(s, id, phase), j)
  {
    assert RecOk(g, i, id, phase);
    CommitMarked(s, id, j);
    if id != j {
      AbortMarked(s, id, j);
    }
  }

  /** The transaction is decided to commit and participant `i` is not one that still
      may give it up. */
  predicate CannotAbort(g: Ledger, i: nat, id: TxnId) {
    Decided(g, id, true) && !RecOk(g, i, id, Aborted)
  }

  lemma {:induction false} RowsMarked(g: Ledger, i: nat, s: Shard, rows: seq<(TxnId, Phase)>, j: TxnId)
    requires ShardOk(g, i, s) && RowsMatch(s, rows) && CannotAbort(g, i, j)
    ensures Marked(s, RowsScript(s, rows), j)
    decreases |rows|
  {
    if rows != [] {
      var id, phase := rows[0].0, rows[0].1;
      assert PhaseOf(s, id) == Some(phase);
      RowMarked(g, i, s, id, phase, j);
      RowOk(g, i, s, id, phase);
      RowEffect(s, id, phase);
      var t := ApplyAll(s, RowScript(s, id, phase));
      RowsStillMatch(s, t, rows);
      ShardOkAfter(g, i, s, RowScript(s, id, phase));
      RowsMarked(g, i, t, rows[1..], j);
      MarkedConcat(s, RowScript(s, id, phase), RowsScript(t, rows[1..]), j);
    }
  }

  lemma DecidedCannotAbort(c: System, i: nat, id: TxnId)
    requires SystemOk(c) && Decided(c.ledger, id, true)
    ensures CannotAbort(c.ledger, i, id)
  {
    assert EveryoneAcked(c, id);
  }

  lemma ScriptMarked(g: Ledger, i: nat, s: Shard, op: Op, j: TxnId)
    requires ShardOk(g, i, s) && Runnable(s, op) && MayAsk(g, i, op) && CannotAbort(g, i, j)
    ensures Marked(s, Script(s, op), j)
  {
    match op
    case Prepare(id, muts) =>
      IntentPutsOf(id, muts);
      NothingCleared(s, PrepareScript(id, muts), j);
    case Commit(id) => CommitMarked(s, id, j);
    case Abort(id) => AbortMarked(s, id, j);
    case Decide(id, commit) => DecisionMarked(s, id, commit, j);
    case Recover(rows) => RowsMarked(g, i, s, rows, j);
  }

  // ---- What every step keeps ----

  /** A running prepare is on its way to the last mutation of every key. */
  ghost predicate Landing(node: Node) {
    node.job.Busy? && node.job.op.Prepare? && AllAllowed(node.job.op.muts) ==>
      forall k :: LastOf(node.job.op.muts, k).Some? ==>
        IntentOf(ApplyAll(node.shard, node.todo), node.job.op.id, k) == LastOf(node.job.op.muts, k)
  }

  /** A prepare marks its record `Preparing` and `Prepared` only. */
  ghost predicate PreparePhases(node: Node) {
    node.job.Busy? && node.job.op.Prepare? ==>
      forall w :: w in node.todo && w.PutRec? ==> w.phase == Preparing || w.phase == Prepared
  }

  ghost predicate CommittedIsClear(s: Shard) {
    forall id :: PhaseOf(s, id) == Some(Committed) ==> NoIntents(s, id)
  }

  ghost predicate NodeKeeps(g: Ledger, node: Node) {
    && OnScript(node) && Landing(node) && PreparePhases(node) && CommittedIsClear(node.shard)
    && forall id :: Decided(g, id, true) ==> Marked(node.shard, node.todo, id)
  }

  ghost predicate AllKeep(c: System) {
    SystemOk(c) && forall i :: 0 <= i < |c.nodes| ==> NodeKeeps(c.ledger, c.nodes[i])
  }

  lemma StartKeepsAll(c: System, i: nat, op: Op)
    requires AllKeep(c) && i < |c.nodes| && CanStart(c.nodes[i], op) && MayAsk(c.ledger, i, op)
    ensures NodeKeeps(c.ledger, NodeAfter(c.nodes[i], Start(i, op)))
  {
    var g, node := c.ledger, c.nodes[i];
    assert NodeOk(g, i, node) && NodeKeeps(g, node);
    if op.Prepare? {
      IntentPutsOf(op.id, op.muts);
      PrepareLands(node.shard, op.id, op.muts);
    } else {
      OpGuarded(node.shard, op);
    }
    forall id | Decided(g, id, true) ensures Marked(node.shard, Script(node.shard, op), id) {
      DecidedCannotAbort(c, i, id);
      ScriptMarked(g, i, node.shard, op, id);
    }
  }

  lemma PrepareLands(s: Shard, id: TxnId, muts: seq<Mutation>)
    ensures Landing(Node(s, PrepareScript(id, muts), Busy(Prepare(id, muts))))
    ensures PreparePhases(Node(s, PrepareScript(id, muts), Busy(Prepare(id, muts))))
  {
    if AllAllowed(muts) {
      forall k | LastOf(muts, k).Some? ensures IntentOf(ApplyAll(s, PrepareScript(id, muts)), id, k) == LastOf(muts, k) {
        PrepareInstalls(s, id, muts, k);
      }
    }
    IntentPutsKinds(id, muts);
  }

  lemma {:induction false} IntentPutsKinds(id: TxnId, muts: seq<Mutation>)
    ensures forall w :: w in IntentPuts(id, muts) ==> w.PutIntent?
    decreases |muts|
  {
    if muts != [] { IntentPutsKinds(id, muts[1..]); }
  }

  lemma WriteKeepsClear(c: System, i: nat)
    requires AllKeep(c) && i < |c.nodes| && c.nodes[i].job.Busy? && c.nodes[i].todo != []
    ensures CommittedIsClear(Apply(c.nodes[i].shard, c.nodes[i].todo[0]))
  {
    var node := c.nodes[i];
    assert NodeOk(c.ledger, i, node) && NodeKeeps(c.ledger, node);
    var w := node.todo[0];
    assert w in node.todo && WriteOk(c.ledger, i, w);
    if w.PutIntent? {
      NotDecidedYet(c, i, w.id);
    }
    ClearAfter(node.shard, w);
  }

  /** While a participant may still write intents of a transaction, nobody commits it. */
  lemma NotDecidedYet(c: System, i: nat, id: TxnId)
    requires SystemOk(c) && i < |c.nodes| && Takes(c.ledger, i, id) && (i, id) !in c.ledger.acked
    ensures PhaseOf(c.nodes[i].shard, id) != Some(Committed)
  {
    assert NodeOk(c.ledger, i, c.nodes[i]);
    assert !EveryoneAcked(c, id);
    assert !Decided(c.ledger, id, true);
  }

  lemma ClearAfter(s: Shard, w: Write)
    requires CommittedIsClear(s)
    requires w.PutRec? && w.phase == Committed ==> NoIntents(s, w.id)
    requires w.PutIntent? ==> PhaseOf(s, w.id) != Some(Committed)
    ensures CommittedIsClear(Apply(s, w))
  {
    var t := Apply(s, w);
    forall id: TxnId | PhaseOf(t, id) == Some(Committed) ensures NoIntents(t, id) {
      assert PhaseOf(s, id) == Some(Committed) ==> NoIntents(s, id);
      assert NoIntents(s, id);
      assert forall k :: (id, k) in t.intents ==> (id, k) in s.intents;
    }
  }

  lemma WriteKeepsAll(c: System, i: nat)
    requires AllKeep(c) && i < |c.nodes| && c.nodes[i].job.Busy? && c.nodes[i].todo != []
    ensures NodeKeeps(c.ledger, NodeAfter(c.nodes[i], WriteNext(i)))
  {
    var node := c.nodes[i];
    assert NodeKeeps(c.ledger, node);
    WriteKeepsClear(c, i);
    assert forall w :: w in node.todo[1..] ==> w in node.todo;
  }

  lemma ChooseKeepsAll(c: System, id: TxnId, commit: bool, i: nat)
    requires AllKeep(c) && Enabled(c, Choose(id, commit)) && i < |c.nodes|
    ensures NodeKeeps(LedgerAfter(c, Choose(id, commit)), c.nodes[i])
  {
    var node := c.nodes[i];
    assert NodeOk(c.ledger, i, node) && NodeKeeps(c.ledger, node);
    if commit {
      assert EveryoneAcked(c, id);
      forall w | w in node.todo && w.DelIntent? ensures w.id != id {
        assert WriteOk(c.ledger, i, w);
      }
      NothingCleared(node.shard, node.todo, id);
    }
  }

  lemma SteppedKeeps(c: System, step: Step)
    requires AllKeep(c) && Enabled(c, step) && !OnLedger(step)
    ensures NodeKeeps(c.ledger, NodeAfter(c.nodes[step.i], step))
  {
    assert NodeKeeps(c.ledger, c.nodes[step.i]) && NodeOk(c.ledger, step.i, c.nodes[step.i]);
    match step
    case Start(i, op) => StartKeepsAll(c, i, op);
    case WriteNext(i) => WriteKeepsAll(c, i);
    case Finish(_, _) =>
    case Crash(_) =>
    case UserWrite(i, key, val) => ClearAfter(c.nodes[i].shard, PutUser(key, val));
  }

  lemma StepKeepsAll(c: System, step: Step)
    requires AllKeep(c) && Enabled(c, step)
    ensures AllKeep(Next(c, step))
  {
    StepKeeps(c, step);
    var d := Next(c, step);
    forall j | 0 <= j < |d.nodes| ensures NodeKeeps(d.ledger, d.nodes[j]) {
      assert NodeKeeps(c.ledger, c.nodes[j]);
      if step.Choose? {
        ChooseKeepsAll(c, step.id, step.commit, j);
      } else if !step.GiveUp? && step.i == j {
        SteppedKeeps(c, step);
        SameDecisions(c, step);
      }
    }
  }

  lemma SameDecisions(c: System, step: Step)
    requires Enabled(c, step) && !step.Choose?
    ensures LedgerAfter(c, step).decided == c.ledger.decided
  {
  }

  lemma {:induction false} RunKeepsAll(c: System, steps: seq<Step>)
    requires AllKeep(c) && Legal(c, steps)
    ensures AllKeep(After(c, steps))
    decreases |steps|
  {
    if steps != [] {
      StepKeepsAll(c, steps[0]);
      RunKeepsAll(Next(c, steps[0]), steps[1..]);
    }
  }

  lemma InitialKeeps(c: System)
    requires Initial(c)
    ensures AllKeep(c)
  {
    InitialOk(c);
  }

  // ---- Intents until the end ----

  /** Some step of the run takes the intent away while its user key holds `v`. */
  ghost predicate HandedOver(c: System, steps: seq<Step>, i: nat, id: TxnId, k: Bytes, v: Option<Bytes>)
    requires Legal(c, steps) && i < |c.nodes|
    decreases |steps|
  {
    steps != [] &&
    (GoesUnder(c, steps[0], i, id, k, v) || HandedOver(Next(c, steps[0]), steps[1..], i, id, k, v))
  }

  ghost predicate GoesUnder(c: System, step: Step, i: nat, id: TxnId, k: Bytes, v: Option<Bytes>)
    requires Enabled(c, step) && i < |c.nodes|
  {
    && WrittenBy(c.nodes[i].shard, id, k, v) && !WrittenBy(Next(c, step).nodes[i].shard, id, k, v)
    && UserValue(c.nodes[i].shard, k) == v && UserValue(Next(c, step).nodes[i].shard, k) == v
  }

  /** An intent of an acknowledged prepare goes only when the transaction is doomed, or
      from under the same value in the user key. */
  lemma IntentGoes(c: System, step: Step, i: nat, id: TxnId, k: Bytes, v: Option<Bytes>)
    requires AllKeep(c) && Enabled(c, step) && i < |c.nodes| && (i, id) in c.ledger.acked
    requires WrittenBy(c.nodes[i].shard, id, k, v) && !WrittenBy(Next(c, step).nodes[i].shard, id, k, v)
    ensures Doomed(c.ledger, id) || GoesUnder(c, step, i, id, k, v)
  {
    var node := c.nodes[i];
    assert NodeOk(c.ledger, i, node) && NodeKeeps(c.ledger, node);
    assert step.WriteNext? && step.i == i && node.todo[0] in node.todo;
    var w := node.todo[0];
    assert WriteOk(c.ledger, i, w);
    assert w == DelIntent(id, k);
    if Decided(c.ledger, id, true) {
      assert Marked(node.shard, node.todo, id);
    }
  }

  /** The transaction stays doomed, and the acknowledgement stands. */
  lemma LedgerGrows(c: System, step: Step)
    requires Enabled(c, step)
    ensures forall id :: Doomed(c.ledger, id) ==> Doomed(Next(c, step).ledger, id)
    ensures c.ledger.acked <= Next(c, step).ledger.acked
  {
  }

  lemma {:induction false} DoomedStays(c: System, steps: seq<Step>, id: TxnId)
    requires Legal(c, steps) && Doomed(c.ledger, id)
    ensures Doomed(After(c, steps).ledger, id)
    decreases |steps|
  {
    if steps != [] {
      LedgerGrows(c, steps[0]);
      DoomedStays(Next(c, steps[0]), steps[1..], id);
    }
  }

  lemma {:induction false} IntentIsKept(c: System, steps: seq<Step>, i: nat, id: TxnId, k: Bytes, v: Option<Bytes>)
    requires AllKeep(c) && Legal(c, steps) && i < |c.nodes| && (i, id) in c.ledger.acked
    requires WrittenBy(c.nodes[i].shard, id, k, v)
    ensures Doomed(After(c, steps).ledger, id) || WrittenBy(After(c, steps).nodes[i].shard, id, k, v) || HandedOver(c, steps, i, id, k, v)
    decreases |steps|
  {
    if steps != [] {
      var d := Next(c, steps[0]);
      StepKeepsAll(c, steps[0]);
      LedgerGrows(c, steps[0]);
      if WrittenBy(d.nodes[i].shard, id, k, v) {
        IntentIsKept(d, steps[1..], i, id, k, v);
      } else {
        IntentGoes(c, steps[0], i, id, k, v);
        if Doomed(c.ledger, id) {
          DoomedStays(c, steps, id);
        }
      }
    }
  }

  lemma CommittedMeansApplied(d: System, i: nat, id: TxnId, k: Bytes, v: Option<Bytes>)
    requires AllKeep(d) && i < |d.nodes| && PhaseOf(d.nodes[i].shard, id) == Some(Committed)
    ensures !Doomed(d.ledger, id) && !WrittenBy(d.nodes[i].shard, id, k, v)
  {
    assert NodeKeeps(d.ledger, d.nodes[i]) && NodeOk(d.ledger, i, d.nodes[i]);
    assert RecOk(d.ledger, i, id, Committed);
  }

  /** An acknowledged prepare is honoured: in every continuation of every run, until the
      transaction is doomed, each of its last mutations is still an intent or the intent
      was taken away with that value in the user key; and at a participant that ends up
      committed it was. */
  lemma AcknowledgedPrepareIsHonoured(c: System, before: seq<Step>, i: nat, behind: seq<Step>, k: Bytes)
    requires Initial(c) && Legal(c, before) && i < |c.nodes| && Enabled(After(c, before), Finish(i, true))
    requires Legal(Next(After(c, before), Finish(i, true)), behind)
    requires LastOf(After(c, before).nodes[i].job.op.muts, k).Some?
    ensures var op := After(c, before).nodes[i].job.op;
            var start, v := Next(After(c, before), Finish(i, true)), LastOf(op.muts, k).value;
            var end := After(start, behind);
            && PhaseOf(start.nodes[i].shard, op.id) == Some(Prepared) && WrittenBy(start.nodes[i].shard, op.id, k, v)
            && (Doomed(end.ledger, op.id) || WrittenBy(end.nodes[i].shard, op.id, k, v) || HandedOver(start, behind, i, op.id, k, v))
            && (PhaseOf(end.nodes[i].shard, op.id) == Some(Committed) ==> HandedOver(start, behind, i, op.id, k, v))
  {
    InitialKeeps(c);
    RunKeepsAll(c, before);
    HonouredFrom(After(c, before), i, behind, k);
  }

  lemma HonouredFrom(d: System, i: nat, behind: seq<Step>, k: Bytes)
    requires AllKeep(d) && i < |d.nodes| && Enabled(d, Finish(i, true)) && Legal(Next(d, Finish(i, true)), behind)
    requires LastOf(d.nodes[i].job.op.muts, k).Some?
    ensures var op := d.nodes[i].job.op;
            var start, v := Next(d, Finish(i, true)), LastOf(op.muts, k).value;
            var end := After(start, behind);
            && PhaseOf(start.nodes[i].shard, op.id) == Some(Prepared) && WrittenBy(start.nodes[i].shard, op.id, k, v)
            && (Doomed(end.ledger, op.id) || WrittenBy(end.nodes[i].shard, op.id, k, v) || HandedOver(start, behind, i, op.id, k, v))
            && (PhaseOf(end.nodes[i].shard, op.id) == Some(Committed) ==> HandedOver(start, behind, i, op.id, k, v))
  {
    var op := d.nodes[i].job.op;
    var start, v := Next(d, Finish(i, true)), LastOf(op.muts, k).value;
    assert NodeOk(d.ledger, i, d.nodes[i]) && NodeKeeps(d.ledger, d.nodes[i]);
    assert IntentOf(d.nodes[i].shard, op.id, k) == Some(v);
    StepKeepsAll(d, Finish(i, true));
    IntentIsKept(start, behind, i, op.id, k, v);
    RunKeepsAll(start, behind);
    if PhaseOf(After(start, behind).nodes[i].shard, op.id) == Some(Committed) {
      CommittedMeansApplied(After(start, behind), i, op.id, k, v);
    }
  }
}
