/** Any number of participants driven by a coordinator, with a crash possible between
    any two durable writes, recovery's own writes included. */
module TwoPhaseSystem {
  import opened ByteStrings
  import opened SystemKeys
  import opened TwoPhase

  datatype Job = Idle | Busy(op: Op) | Down

  /** `todo` is what is left of the running operation's script. */
  datatype Node = Node(shard: Shard, todo: seq<Write>, job: Job)

  /** The coordinator's view: who takes part in a transaction, which prepares were
      acknowledged, the recorded decisions, and the transactions it gave up before it
      tried to record a commit. */
  datatype Ledger = Ledger(parts: map<TxnId, set<nat>>, acked: set<(nat, TxnId)>, decided: map<TxnId, bool>, dropped: set<TxnId>)

  datatype System = System(ledger: Ledger, nodes: seq<Node>)

  datatype Step =
    | Start(i: nat, op: Op)
    | WriteNext(i: nat)
    | Finish(i: nat, ack: bool)
    | Crash(i: nat)
    | UserWrite(i: nat, key: Bytes, val: Option<Bytes>)
    | Choose(id: TxnId, commit: bool)
    | GiveUp(id: TxnId)

  predicate Takes(g: Ledger, i: nat, id: TxnId) {
    id in g.parts && i in g.parts[id]
  }

  predicate Decided(g: Ledger, id: TxnId, commit: bool) {
    id in g.decided && g.decided[id] == commit
  }

  /** The abort is recorded, or the coordinator gave up and will record no commit. */
  predicate Doomed(g: Ledger, id: TxnId) {
    Decided(g, id, false) || id in g.dropped
  }

  /** What the coordinator may ask of participant `i`: no prepare after an
      acknowledged one, commits and decisions as recorded, and aborts of what is doomed,
      whether or not recording the abort succeeded. */
  predicate MayAsk(g: Ledger, i: nat, op: Op) {
    match op
    case Prepare(id, _) => Takes(g, i, id) && (i, id) !in g.acked
    case Commit(id) => Decided(g, id, true)
    case Abort(id) => Doomed(g, id)
    case Decide(id, commit) => Decided(g, id, commit)
    case Recover(_) => true
  }

  predicate CanStart(node: Node, op: Op) {
    Runnable(node.shard, op) && (node.job == Idle || (node.job == Down && op.Recover?))
  }

  predicate Enabled(c: System, step: Step) {
    match step
    case Choose(id, commit) =>
      id !in c.ledger.decided && (commit ==> id !in c.ledger.dropped && EveryoneAcked(c, id))
    case GiveUp(id) => !Decided(c.ledger, id, true)
    case Start(i, op) => i < |c.nodes| && CanStart(c.nodes[i], op) && MayAsk(c.ledger, i, op)
    case WriteNext(i) => i < |c.nodes| && c.nodes[i].job.Busy? && c.nodes[i].todo != []
    case Finish(i, ack) =>
      i < |c.nodes| && c.nodes[i].job.Busy? && c.nodes[i].todo == []
      && (ack ==> c.nodes[i].job.op.Prepare? && AllAllowed(c.nodes[i].job.op.muts))
    case Crash(i) => i < |c.nodes|
    case UserWrite(i, key, _) => i < |c.nodes| && c.nodes[i].job == Idle && key != [] && !IsSystemKey(key)
  }

  function NodeAfter(node: Node, step: Step): Node
    requires step.WriteNext? ==> node.todo != []
  {
    match step
    case Start(_, op) => Node(node.shard, Script(node.shard, op), Busy(op))
    case WriteNext(_) => node.(shard := Apply(node.shard, node.todo[0]), todo := node.todo[1..])
    case Finish(_, _) => node.(job := Idle)
    case Crash(_) => Node(node.shard, [], Down)
    case UserWrite(_, key, val) => node.(shard := Apply(node.shard, PutUser(key, val)))
    case Choose(_, _) => node
    case GiveUp(_) => node
  }

  predicate OnLedger(step: Step) {
    step.Choose? || step.GiveUp?
  }

  function LedgerAfter(c: System, step: Step): Ledger
    requires Enabled(c, step)
  {
    match step
    case Choose(id, commit) => c.ledger.(decided := c.ledger.decided[id := commit])
    case GiveUp(id) => c.ledger.(dropped := c.ledger.dropped + {id})
    case Finish(i, ack) => if ack then c.ledger.(acked := c.ledger.acked + {(i, c.nodes[i].job.op.id)}) else c.ledger
    case _ => c.ledger
  }

  function Next(c: System, step: Step): System
    requires Enabled(c, step)
  {
    System(LedgerAfter(c, step), if OnLedger(step) then c.nodes else c.nodes[step.i := NodeAfter(c.nodes[step.i], step)])
  }

  predicate Legal(c: System, steps: seq<Step>)
    decreases |steps|
  {
    steps == [] || (Enabled(c, steps[0]) && Legal(Next(c, steps[0]), steps[1..]))
  }

  function After(c: System, steps: seq<Step>): System
    requires Legal(c, steps)
    ensures |After(c, steps).nodes| == |c.nodes| && After(c, steps).ledger.parts == c.ledger.parts
    decreases |steps|
  {
    if steps == [] then c else After(Next(c, steps[0]), steps[1..])
  }

  /** Participants that hold user data only; nothing asked, acknowledged or decided. */
  predicate Initial(c: System) {
    && c.ledger.acked == {} && c.ledger.decided == map[] && c.ledger.dropped == {}
    && forall i :: 0 <= i < |c.nodes| ==> c.nodes[i] == Node(Shard(map[], map[], map[], c.nodes[i].shard.user), [], Idle)
  }

  // ---- The invariant ----

  /** When participant `i` may hold, or be about to write, this phase. */
  predicate RecOk(g: Ledger, i: nat, id: TxnId, phase: Phase) {
    match phase
    case Preparing => Takes(g, i, id) && (i, id) !in g.acked
    case Prepared => Takes(g, i, id)
    case Aborted => Doomed(g, id) || (Takes(g, i, id) && (i, id) !in g.acked)
    case _ => Decided(g, id, true)
  }

  predicate WriteOk(g: Ledger, i: nat, w: Write) {
    && (w.PutRec? ==> RecOk(g, i, w.id, w.phase))
    && (w.PutDec? ==> Decided(g, w.id, w.commit))
    && (w.PutIntent? ==> Takes(g, i, w.id) && (i, w.id) !in g.acked)
    && (w.DelIntent? ==> MayClear(g, i, w.id))
  }

  /** Intents are cleared by a commit that is decided or by an abort. */
  predicate MayClear(g: Ledger, i: nat, id: TxnId) {
    Decided(g, id, true) || RecOk(g, i, id, Aborted)
  }

  predicate AllOk(g: Ledger, i: nat, ws: seq<Write>) {
    forall w :: w in ws ==> WriteOk(g, i, w)
  }

  ghost predicate ShardOk(g: Ledger, i: nat, s: Shard) {
    && (forall id :: id in s.recs ==> RecOk(g, i, id, s.recs[id]))
    && (forall id :: id in s.decs ==> Decided(g, id, s.decs[id]))
    && (forall id :: (i, id) in g.acked ==> id in s.recs)
  }

  /** A prepare that will be acknowledged still has its last write ahead of it, or it
      has been made. */
  predicate PrepareOnCourse(node: Node) {
    node.job.Busy? && node.job.op.Prepare? && AllAllowed(node.job.op.muts) ==>
      if node.todo == [] then PhaseOf(node.shard, node.job.op.id) == Some(Prepared)
      else node.todo[|node.todo| - 1] == PutRec(node.job.op.id, Prepared)
  }

  ghost predicate NodeOk(g: Ledger, i: nat, node: Node) {
    ShardOk(g, i, node.shard) && AllOk(g, i, node.todo) && PrepareOnCourse(node)
    && (!node.job.Busy? ==> node.todo == [])
  }

  predicate EveryoneAcked(c: System, id: TxnId) {
    id in c.ledger.parts && forall i :: i in c.ledger.parts[id] ==> i < |c.nodes| && (i, id) in c.ledger.acked
  }

  ghost predicate LedgerOk(c: System) {
    forall id :: Decided(c.ledger, id, true) ==> EveryoneAcked(c, id) && id !in c.ledger.dropped
  }

  ghost predicate SystemOk(c: System) {
    LedgerOk(c) && forall i :: 0 <= i < |c.nodes| ==> NodeOk(c.ledger, i, c.nodes[i])
  }

  // ---- What the scripts write ----

  lemma {:induction false} ClearOk(g: Ledger, i: nat, id: TxnId, keys: seq<Bytes>)
    requires MayClear(g, i, id)
    ensures AllOk(g, i, Clear(id, keys))
    decreases |keys|
  {
    if keys != [] { ClearOk(g, i, id, keys[1..]); }
  }

  lemma {:induction false} MaterializeOk(g: Ledger, i: nat, s: Shard, id: TxnId, keys: seq<Bytes>)
    requires forall n :: 0 <= n < |keys| ==> (id, keys[n]) in s.intents
    ensures AllOk(g, i, Materialize(s, id, keys))
    decreases |keys|
  {
    if keys != [] { MaterializeOk(g, i, s, id, keys[1..]); }
  }

  lemma CommitOk(g: Ledger, i: nat, s: Shard, id: TxnId)
    requires Decided(g, id, true)
    ensures AllOk(g, i, CommitScript(s, id))
  {
    var keys := IntentKeys(s, id);
    assert forall n :: 0 <= n < |keys| ==> keys[n] in keys;
    MaterializeOk(g, i, s, id, keys);
    ClearOk(g, i, id, keys);
  }

  lemma AbortOk(g: Ledger, i: nat, s: Shard, id: TxnId)
    requires RecOk(g, i, id, Aborted)
    ensures AllOk(g, i, AbortScript(s, id))
  {
    ClearOk(g, i, id, IntentKeys(s, id));
  }

  lemma RowOk(g: Ledger, i: nat, s: Shard, id: TxnId, phase: Phase)
    requires ShardOk(g, i, s) && PhaseOf(s, id) == Some(phase)
    ensures AllOk(g, i, RowScript(s, id, phase))
  {
    assert RecOk(g, i, id, s.recs[id]);
    if Decided(g, id, true) {
      CommitOk(g, i, s, id);
    }
    if RecOk(g, i, id, Aborted) {
      AbortOk(g, i, s, id);
    }
  }

  lemma ShardOkWrite(g: Ledger, i: nat, s: Shard, w: Write)
    requires ShardOk(g, i, s) && WriteOk(g, i, w)
    ensures ShardOk(g, i, Apply(s, w))
  {
  }

  lemma {:induction false} ShardOkAfter(g: Ledger, i: nat, s: Shard, ws: seq<Write>)
    requires ShardOk(g, i, s) && AllOk(g, i, ws)
    ensures ShardOk(g, i, ApplyAll(s, ws))
    decreases |ws|
  {
    if ws != [] {
      assert ws[0] in ws;
      ShardOkWrite(g, i, s, ws[0]);
      ShardOkAfter(g, i, Apply(s, ws[0]), ws[1..]);
    }
  }

  lemma {:induction false} RowsOk(g: Ledger, i: nat, s: Shard, rows: seq<(TxnId, Phase)>)
    requires ShardOk(g, i, s) && RowsMatch(s, rows)
    ensures AllOk(g, i, RowsScript(s, rows))
    decreases |rows|
  {
    if rows != [] {
      var id, phase := rows[0].0, rows[0].1;
      assert PhaseOf(s, id) == Some(phase);
      RowOk(g, i, s, id, phase);
      RowEffect(s, id, phase);
      var t := ApplyAll(s, RowScript(s, id, phase));
      RowsStillMatch(s, t, rows);
      ShardOkAfter(g, i, s, RowScript(s, id, phase));
      RowsOk(g, i, t, rows[1..]);
    }
  }

  lemma ScriptOk(g: Ledger, i: nat, s: Shard, op: Op)
    requires ShardOk(g, i, s) && Runnable(s, op) && MayAsk(g, i, op)
    ensures AllOk(g, i, Script(s, op))
  {
    match op
    case Prepare(id, muts) =>
      IntentPutsOf(id, muts);
      IntentPutsOk(g, i, id, muts);
    case Commit(id) => CommitOk(g, i, s, id);
    case Abort(id) => AbortOk(g, i, s, id);
    case Decide(id, commit) =>
      if commit { CommitOk(g, i, s, id); } else { AbortOk(g, i, s, id); }
    case Recover(rows) => RowsOk(g, i, s, rows);
  }

  lemma {:induction false} IntentPutsOk(g: Ledger, i: nat, id: TxnId, muts: seq<Mutation>)
    requires Takes(g, i, id) && (i, id) !in g.acked
    ensures AllOk(g, i, IntentPuts(id, muts))
    decreases |muts|
  {
    if muts != [] { IntentPutsOk(g, i, id, muts[1..]); }
  }

  // ---- Every step keeps the invariant ----

  lemma StartKeeps(g: Ledger, i: nat, node: Node, op: Op)
    requires NodeOk(g, i, node) && CanStart(node, op) && MayAsk(g, i, op)
    ensures NodeOk(g, i, NodeAfter(node, Start(i, op)))
  {
    ScriptOk(g, i, node.shard, op);
  }

  lemma WriteKeeps(g: Ledger, i: nat, node: Node)
    requires NodeOk(g, i, node) && node.job.Busy? && node.todo != []
    ensures NodeOk(g, i, NodeAfter(node, WriteNext(i)))
  {
    assert node.todo[0] in node.todo && WriteOk(g, i, node.todo[0]);
    ShardOkWrite(g, i, node.shard, node.todo[0]);
    assert forall w :: w in node.todo[1..] ==> w in node.todo;
  }

  lemma UserKeeps(g: Ledger, i: nat, node: Node, key: Bytes, val: Option<Bytes>)
    requires NodeOk(g, i, node) && node.job == Idle
    ensures NodeOk(g, i, NodeAfter(node, UserWrite(i, key, val)))
  {
  }

  /** An acknowledgement makes nothing already on disk or pending wrong. */
  lemma AckKeeps(g: Ledger, h: Ledger, i: nat, node: Node, id: TxnId)
    requires NodeOk(g, i, node) && node.todo == [] && PhaseOf(node.shard, id) == Some(Prepared)
    requires h == g.(acked := g.acked + {(i, id)})
    ensures NodeOk(h, i, node.(job := Idle))
  {
  }

  lemma AckElsewhere(g: Ledger, h: Ledger, i: nat, j: nat, node: Node, id: TxnId)
    requires NodeOk(g, j, node) && j != i && h == g.(acked := g.acked + {(i, id)})
    ensures NodeOk(h, j, node)
  {
    assert forall k :: (j, k) in h.acked <==> (j, k) in g.acked;
    assert forall k, p :: RecOk(g, j, k, p) ==> RecOk(h, j, k, p);
  }

  lemma ChoiceKeeps(g: Ledger, h: Ledger, i: nat, node: Node, id: TxnId, commit: bool)
    requires NodeOk(g, i, node) && id !in g.decided && h == g.(decided := g.decided[id := commit])
    ensures NodeOk(h, i, node)
  {
    assert forall k, p :: RecOk(g, i, k, p) ==> RecOk(h, i, k, p);
  }

  lemma GiveUpKeeps(g: Ledger, h: Ledger, i: nat, node: Node, id: TxnId)
    requires NodeOk(g, i, node) && h == g.(dropped := g.dropped + {id})
    ensures NodeOk(h, i, node)
  {
    assert forall k, p :: RecOk(g, i, k, p) ==> RecOk(h, i, k, p);
  }

  lemma SteppedNode(c: System, step: Step)
    requires SystemOk(c) && Enabled(c, step) && !OnLedger(step)
    ensures NodeOk(LedgerAfter(c, step), step.i, NodeAfter(c.nodes[step.i], step))
  {
    var node := c.nodes[step.i];
    assert NodeOk(c.ledger, step.i, node);
    match step
    case Start(i, op) => StartKeeps(c.ledger, i, node, op);
    case WriteNext(i) => WriteKeeps(c.ledger, i, node);
    case Finish(i, ack) =>
      if ack { AckKeeps(c.ledger, LedgerAfter(c, step), i, node, node.job.op.id); }
    case Crash(_) =>
    case UserWrite(i, key, val) => UserKeeps(c.ledger, i, node, key, val);
  }

  lemma OtherNode(c: System, step: Step, j: nat)
    requires SystemOk(c) && Enabled(c, step) && j < |c.nodes| && (OnLedger(step) || step.i != j)
    ensures NodeOk(LedgerAfter(c, step), j, c.nodes[j])
  {
    assert NodeOk(c.ledger, j, c.nodes[j]);
    if step.Choose? {
      ChoiceKeeps(c.ledger, LedgerAfter(c, step), j, c.nodes[j], step.id, step.commit);
    } else if step.GiveUp? {
      GiveUpKeeps(c.ledger, LedgerAfter(c, step), j, c.nodes[j], step.id);
    } else if step.Finish? && step.ack {
      AckElsewhere(c.ledger, LedgerAfter(c, step), step.i, j, c.nodes[j], c.nodes[step.i].job.op.id);
    }
  }

  lemma StepKeeps(c: System, step: Step)
    requires SystemOk(c) && Enabled(c, step)
    ensures SystemOk(Next(c, step))
  {
    var d := Next(c, step);
    forall j | 0 <= j < |d.nodes| ensures NodeOk(d.ledger, j, d.nodes[j]) {
      if !OnLedger(step) && step.i == j {
        SteppedNode(c, step);
      } else {
        OtherNode(c, step, j);
      }
    }
    forall id | Decided(d.ledger, id, true) ensures EveryoneAcked(d, id) && id !in d.ledger.dropped {
      assert EveryoneAcked(c, id) && id !in c.ledger.dropped by {
        assert (step.Choose? && step.id == id) || Decided(c.ledger, id, true);
      }
    }
  }

  lemma {:induction false} RunKeeps(c: System, steps: seq<Step>)
    requires SystemOk(c) && Legal(c, steps)
    ensures SystemOk(After(c, steps))
    decreases |steps|
  {
    if steps != [] {
      StepKeeps(c, steps[0]);
      RunKeeps(Next(c, steps[0]), steps[1..]);
    }
  }

  // ---- Agreement ----

  lemma AgreedAt(d: System, id: TxnId, i: nat, j: nat)
    requires SystemOk(d) && i < |d.nodes| && CommitChosen(d.nodes[i].shard, id)
    ensures Decided(d.ledger, id, true) && EveryoneAcked(d, id)
    ensures j < |d.nodes| ==> PhaseOf(d.nodes[j].shard, id) != Some(Aborted)
    ensures Takes(d.ledger, j, id) ==>
      j < |d.nodes| && (PhaseOf(d.nodes[j].shard, id) == Some(Prepared) || CommitChosen(d.nodes[j].shard, id))
  {
  }

  /** In every reachable state no transaction is `Committing` or `Committed` at one
      participant and `Aborted` at another, whatever crashed on the way. */
  lemma Agreement(c: System, steps: seq<Step>, id: TxnId, i: nat, j: nat)
    requires Initial(c) && Legal(c, steps) && i < |c.nodes| && j < |c.nodes|
    ensures var d := After(c, steps);
            !(CommitChosen(d.nodes[i].shard, id) && PhaseOf(d.nodes[j].shard, id) == Some(Aborted))
  {
    RunKeeps(c, steps);
    if CommitChosen(After(c, steps).nodes[i].shard, id) {
      AgreedAt(After(c, steps), id, i, j);
    }
  }

  /** A commit chosen anywhere means every participant durably prepared, and none has
      given the transaction up since. */
  lemma CommitNeedsEveryPrepare(c: System, steps: seq<Step>, id: TxnId, i: nat, j: nat)
    requires Initial(c) && Legal(c, steps) && i < |c.nodes| && CommitChosen(After(c, steps).nodes[i].shard, id)
    requires Takes(c.ledger, j, id)
    ensures var d := After(c, steps);
            j < |d.nodes| && (PhaseOf(d.nodes[j].shard, id) == Some(Prepared) || CommitChosen(d.nodes[j].shard, id))
  {
    RunKeeps(c, steps);
    AgreedAt(After(c, steps), id, i, j);
  }

  // ---- User keys ----

  /** What is left of a script still finds the states it was written for. */
  ghost predicate OnScript(node: Node) {
    node.job.Busy? ==>
      if node.job.op.Prepare? then PrepareWrites(node.todo, node.job.op.id) else Guarded(node.shard, node.todo)
  }

  ghost predicate AllOnScript(c: System) {
    forall i :: 0 <= i < |c.nodes| ==> OnScript(c.nodes[i])
  }

  lemma StepKeepsScripts(c: System, step: Step)
    requires AllOnScript(c) && Enabled(c, step)
    ensures AllOnScript(Next(c, step))
  {
    if !OnLedger(step) {
      var node := c.nodes[step.i];
      assert OnScript(node);
      match step
      case Start(i, op) =>
        if op.Prepare? { IntentPutsOf(op.id, op.muts); } else { OpGuarded(node.shard, op); }
      case _ =>
    }
  }

  lemma {:induction false} RunKeepsScripts(c: System, steps: seq<Step>)
    requires AllOnScript(c) && Legal(c, steps)
    ensures AllOnScript(After(c, steps))
    decreases |steps|
  {
    if steps != [] {
      StepKeepsScripts(c, steps[0]);
      RunKeepsScripts(Next(c, steps[0]), steps[1..]);
    }
  }

  lemma {:induction false} DecidedStays(c: System, steps: seq<Step>, id: TxnId)
    requires Legal(c, steps) && Decided(c.ledger, id, true)
    ensures Decided(After(c, steps).ledger, id, true)
    decreases |steps|
  {
    if steps != [] {
      DecidedStays(Next(c, steps[0]), steps[1..], id);
    }
  }

  /** The transaction that wrote `x` at key `k` of this participant. */
  ghost predicate WrittenBy(s: Shard, id: TxnId, k: Bytes, x: Option<Bytes>) {
    (id, k) in s.intents && s.intents[(id, k)] == x
  }

  lemma UserChange(d: System, step: Step, i: nat, k: Bytes)
    requires SystemOk(d) && AllOnScript(d) && Enabled(d, step) && !step.UserWrite? && i < |d.nodes|
    requires UserValue(Next(d, step).nodes[i].shard, k) != UserValue(d.nodes[i].shard, k)
    ensures exists id: TxnId :: Decided(d.ledger, id, true)
              && WrittenBy(d.nodes[i].shard, id, k, UserValue(Next(d, step).nodes[i].shard, k))
  {
    var node := d.nodes[i];
    assert OnScript(node) && NodeOk(d.ledger, i, node);
    assert step.WriteNext? && step.i == i && node.todo[0] in node.todo;
    var x := UserValue(Next(d, step).nodes[i].shard, k);
    var id: TxnId :| CommittingIntent(node.shard, id, k, x);
    assert Decided(d.ledger, id, true) && WrittenBy(node.shard, id, k, x);
  }

  lemma NeverAborted(d: System, id: TxnId, j: nat)
    requires SystemOk(d) && Decided(d.ledger, id, true) && j < |d.nodes|
    ensures PhaseOf(d.nodes[j].shard, id) != Some(Aborted)
  {
    assert EveryoneAcked(d, id) && NodeOk(d.ledger, j, d.nodes[j]);
  }

  /** Transaction `id` wrote `x` at `k` in the state `s`, and nobody has it aborted in `end`. */
  ghost predicate WroteAndStands(s: Shard, end: System, id: TxnId, k: Bytes, x: Option<Bytes>) {
    WrittenBy(s, id, k, x) && forall j :: 0 <= j < |end.nodes| ==> PhaseOf(end.nodes[j].shard, id) != Some(Aborted)
  }

  lemma Stands(d: System, steps: seq<Step>, s: Shard, id: TxnId, k: Bytes, x: Option<Bytes>)
    requires SystemOk(d) && Legal(d, steps) && Decided(d.ledger, id, true) && WrittenBy(s, id, k, x)
    ensures WroteAndStands(s, After(d, steps), id, k, x)
  {
    RunKeeps(d, steps);
    DecidedStays(d, steps, id);
    var end := After(d, steps);
    forall j | 0 <= j < |end.nodes| ensures PhaseOf(end.nodes[j].shard, id) != Some(Aborted) {
      NeverAborted(end, id, j);
    }
  }

  lemma StepStands(d: System, step: Step, behind: seq<Step>, i: nat, k: Bytes)
    requires SystemOk(d) && AllOnScript(d) && Enabled(d, step) && !step.UserWrite? && i < |d.nodes|
    requires Legal(Next(d, step), behind) && UserValue(Next(d, step).nodes[i].shard, k) != UserValue(d.nodes[i].shard, k)
    ensures exists id: TxnId ::
              WroteAndStands(d.nodes[i].shard, After(Next(d, step), behind), id, k, UserValue(Next(d, step).nodes[i].shard, k))
  {
    UserChange(d, step, i, k);
    var x := UserValue(Next(d, step).nodes[i].shard, k);
    var id: TxnId :| Decided(d.ledger, id, true) && WrittenBy(d.nodes[i].shard, id, k, x);
    StepKeeps(d, step);
    Stands(Next(d, step), behind, d.nodes[i].shard, id, k, x);
  }

  /** Anywhere in a run, a step other than a plain write changes a user key only to the
      intent of a transaction that no participant ever has aborted afterwards: what
      aborts has changed no user key. */
  lemma OnlyCommitsChangeUserKeys(c: System, before: seq<Step>, step: Step, behind: seq<Step>, i: nat, k: Bytes)
    requires Initial(c) && Legal(c, before) && Enabled(After(c, before), step) && !step.UserWrite? && i < |c.nodes|
    requires Legal(Next(After(c, before), step), behind)
    requires UserValue(Next(After(c, before), step).nodes[i].shard, k) != UserValue(After(c, before).nodes[i].shard, k)
    ensures var d := After(c, before);
            exists id: TxnId ::
              WroteAndStands(d.nodes[i].shard, After(Next(d, step), behind), id, k, UserValue(Next(d, step).nodes[i].shard, k))
  {
    Reachable(c, before);
    StepStands(After(c, before), step, behind, i, k);
  }

  lemma InitialOk(c: System)
    requires Initial(c)
    ensures SystemOk(c) && AllOnScript(c)
  {
  }

  lemma Reachable(c: System, steps: seq<Step>)
    requires Initial(c) && Legal(c, steps)
    ensures SystemOk(After(c, steps)) && AllOnScript(After(c, steps))
  {
    InitialOk(c);
    RunKeeps(c, steps);
    RunKeepsScripts(c, steps);
  }

  // ---- The coordinator rule is needed ----

  /** Participant `j` runs an operation to its end, allowed or not. */
  function Forced(c: System, j: nat, op: Op): System
    requires j < |c.nodes|
  {
    c.(nodes := c.nodes[j := c.nodes[j].(shard := ApplyAll(c.nodes[j].shard, Script(c.nodes[j].shard, op)))])
  }

  ghost predicate AgreedOn(c: System, id: TxnId) {
    forall i, j :: 0 <= i < |c.nodes| && 0 <= j < |c.nodes| ==>
      !(CommitChosen(c.nodes[i].shard, id) && PhaseOf(c.nodes[j].shard, id) == Some(Aborted))
  }

  ghost predicate SomeoneCommits(c: System, id: TxnId) {
    exists i :: 0 <= i < |c.nodes| && CommitChosen(c.nodes[i].shard, id)
  }

  /** A participant told to abort does not consult the decision. In any reachable state
      an abort keeps agreement exactly unless its participant is undecided while some
      participant has chosen to commit. */
  lemma StrayAbortExact(c: System, steps: seq<Step>, id: TxnId, j: nat)
    requires Initial(c) && Legal(c, steps) && j < |c.nodes|
    ensures var d := After(c, steps);
            AgreedOn(Forced(d, j, Abort(id)), id) <==> !(Undecided(d.nodes[j].shard, id) && SomeoneCommits(d, id))
  {
    Reachable(c, steps);
    StrayAbortAt(After(c, steps), id, j);
  }

  lemma StrayAbortAt(d: System, id: TxnId, j: nat)
    requires SystemOk(d) && j < |d.nodes|
    ensures AgreedOn(Forced(d, j, Abort(id)), id) <==> !(Undecided(d.nodes[j].shard, id) && SomeoneCommits(d, id))
  {
    var e := Forced(d, j, Abort(id));
    AbortEffect(d.nodes[j].shard, id);
    if Undecided(d.nodes[j].shard, id) {
      assert PhaseOf(e.nodes[j].shard, id) == Some(Aborted);
      if SomeoneCommits(d, id) {
        var i :| 0 <= i < |d.nodes| && CommitChosen(d.nodes[i].shard, id);
        assert i != j && CommitChosen(e.nodes[i].shard, id);
      }
    } else {
      assert e.nodes == d.nodes;
      forall i, k | 0 <= i < |d.nodes| && 0 <= k < |d.nodes| && CommitChosen(d.nodes[i].shard, id)
        ensures PhaseOf(d.nodes[k].shard, id) != Some(Aborted)
      {
        AgreedAt(d, id, i, k);
      }
    }
  }

  /** The aborts the coordinator may send are never of that kind. */
  lemma AllowedAbortIsSafe(c: System, steps: seq<Step>, id: TxnId, j: nat)
    requires Initial(c) && Legal(c, steps) && j < |c.nodes| && MayAsk(After(c, steps).ledger, j, Abort(id))
    ensures !SomeoneCommits(After(c, steps), id)
  {
    Reachable(c, steps);
    var d := After(c, steps);
    if SomeoneCommits(d, id) {
      var i :| 0 <= i < |d.nodes| && CommitChosen(d.nodes[i].shard, id);
      AgreedAt(d, id, i, j);
    }
  }

  lemma {:induction false} OneMoreStep(c: System, steps: seq<Step>, step: Step)
    requires Legal(c, steps) && Enabled(After(c, steps), step)
    ensures Legal(c, steps + [step]) && After(c, steps + [step]) == Next(After(c, steps), step)
    decreases |steps|
  {
    if steps == [] {
      assert steps + [step] == [step] && [step][1..] == [];
    } else {
      OneMoreStep(Next(c, steps[0]), steps[1..], step);
      assert (steps + [step])[1..] == steps[1..] + [step];
    }
  }

  const EMPTY := Shard(map[], map[], map[], map[])

  /** One participant, asked to prepare nothing, acknowledges. */
  lemma PrepareRun(c: System, steps: seq<Step>, i: nat, id: TxnId) returns (more: seq<Step>)
    requires Legal(c, steps) && i < |c.nodes| && After(c, steps).nodes[i] == Node(EMPTY, [], Idle)
    requires MayAsk(After(c, steps).ledger, i, Prepare(id, []))
    ensures Legal(c, more)
    ensures var d := After(c, steps);
            After(c, more) == System(d.ledger.(acked := d.ledger.acked + {(i, id)}),
                                     d.nodes[i := Node(EMPTY.(recs := map[id := Prepared]), [], Idle)])
  {
    var op := Prepare(id, []);
    var prepared := EMPTY.(recs := map[id := Prepared]);
    more := PrepareWritten(c, steps, i, id);
    more := NodeStep(c, more, Finish(i, true), Node(prepared, [], Idle));
  }

  lemma PrepareWritten(c: System, steps: seq<Step>, i: nat, id: TxnId) returns (more: seq<Step>)
    requires Legal(c, steps) && i < |c.nodes| && After(c, steps).nodes[i] == Node(EMPTY, [], Idle)
    requires MayAsk(After(c, steps).ledger, i, Prepare(id, []))
    ensures Legal(c, more)
    ensures var d := After(c, steps);
            After(c, more) == System(d.ledger, d.nodes[i := Node(EMPTY.(recs := map[id := Prepared]), [], Busy(Prepare(id, [])))])
  {
    var preparing, prepared := EMPTY.(recs := map[id := Preparing]), EMPTY.(recs := map[id := Prepared]);
    assert preparing.recs[id := Prepared] == prepared.recs;
    more := PrepareStarted(c, steps, i, id);
    more := NodeStep(c, more, WriteNext(i), Node(prepared, [], Busy(Prepare(id, []))));
  }

  lemma PrepareStarted(c: System, steps: seq<Step>, i: nat, id: TxnId) returns (more: seq<Step>)
    requires Legal(c, steps) && i < |c.nodes| && After(c, steps).nodes[i] == Node(EMPTY, [], Idle)
    requires MayAsk(After(c, steps).ledger, i, Prepare(id, []))
    ensures Legal(c, more) && After(c, more).ledger == After(c, steps).ledger
    ensures After(c, more).nodes
         == After(c, steps).nodes[i := Node(EMPTY.(recs := map[id := Preparing]), [PutRec(id, Prepared)], Busy(Prepare(id, [])))]
  {
    var op := Prepare(id, []);
    assert PrepareScript(id, []) == [PutRec(id, Preparing), PutRec(id, Prepared)];
    more := NodeStep(c, steps, Start(i, op), Node(EMPTY, PrepareScript(id, []), Busy(op)));
    more := NodeStep(c, more, WriteNext(i), Node(EMPTY.(recs := map[id := Preparing]), [PutRec(id, Prepared)], Busy(op)));
  }

  lemma NodeStep(c: System, steps: seq<Step>, step: Step, node: Node) returns (more: seq<Step>)
    requires Legal(c, steps) && Enabled(After(c, steps), step) && !OnLedger(step)
    requires NodeAfter(After(c, steps).nodes[step.i], step) == node
    ensures Legal(c, more) && After(c, more).nodes == After(c, steps).nodes[step.i := node]
    ensures After(c, more).ledger == LedgerAfter(After(c, steps), step)
  {
    OneMoreStep(c, steps, step);
    more := steps + [step];
  }

  /** A coordinator that takes a recorded commit decision for failed: both participants
      prepare, the decision is recorded at the first and resolves its record, and the
      abort sent to the second splits the transaction. */
  lemma SplitIsReachable(id: TxnId) returns (c: System, steps: seq<Step>)
    ensures Initial(c) && |c.nodes| == 2 && Legal(c, steps)
    ensures Undecided(After(c, steps).nodes[1].shard, id) && SomeoneCommits(After(c, steps), id)
    ensures !AgreedOn(Forced(After(c, steps), 1, Abort(id)), id)
  {
    var idle := Node(EMPTY, [], Idle);
    c := System(Ledger(map[id := {0, 1}], {}, map[], {}), [idle, idle]);
    steps := PrepareRun(c, [], 0, id);
    steps := PrepareRun(c, steps, 1, id);
    var ready := Node(EMPTY.(recs := map[id := Prepared]), [], Idle);
    var d := System(Ledger(map[id := {0, 1}], {(0, id), (1, id)}, map[], {}), [ready, ready]);
    assert After(c, steps) == d;
    OneMoreStep(c, steps, Choose(id, true));
    steps := DecidedFirst(c, steps + [Choose(id, true)], id, ready);
    StrayAbortExact(c, steps, id, 1);
  }

  lemma DecidedFirst(c: System, steps: seq<Step>, id: TxnId, ready: Node) returns (more: seq<Step>)
    requires Legal(c, steps) && After(c, steps).nodes == [ready, ready] && Decided(After(c, steps).ledger, id, true)
    requires ready.job == Idle && InDoubt(ready.shard, id)
    ensures Legal(c, more) && |After(c, more).nodes| == 2
    ensures CommitChosen(After(c, more).nodes[0].shard, id) && After(c, more).nodes[1] == ready
  {
    var op := Decide(id, true);
    var ws := Script(ready.shard, op);
    assert ws[0] == PutDec(id, true) && ws[1] == PutRec(id, Committing);
    more := NodeStep(c, steps, Start(0, op), Node(ready.shard, ws, Busy(op)));
    more := TwoWrites(c, more, Node(ready.shard, ws, Busy(op)), ready, id);
  }

  lemma TwoWrites(c: System, steps: seq<Step>, busy: Node, ready: Node, id: TxnId) returns (more: seq<Step>)
    requires Legal(c, steps) && After(c, steps).nodes == [busy, ready] && busy.job.Busy?
    requires |busy.todo| >= 2 && busy.todo[0] == PutDec(id, true) && busy.todo[1] == PutRec(id, Committing)
    ensures Legal(c, more) && |After(c, more).nodes| == 2
    ensures CommitChosen(After(c, more).nodes[0].shard, id) && After(c, more).nodes[1] == ready
  {
    var noted := NodeAfter(busy, WriteNext(0));
    more := NodeStep(c, steps, WriteNext(0), noted);
    more := NodeStep(c, more, WriteNext(0), NodeAfter(noted, WriteNext(0)));
  }
}
