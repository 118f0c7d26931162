/** The two-phase tables on the storage engine: every durable write of an operation is a
    logged put, so a crash at any disk step, followed by reopening, leaves exactly a
    prefix of the operation's writes; and opening goes on with recovery. */
module TwoPhaseOnDisk {
  import opened ByteStrings
  import opened Versions
  import opened SystemKeys
  import opened WriteAheadLog
  import opened Storage
  import opened SimDisk
  import opened CrashRecovery
  import opened TwoPhase
  import CP = CrashPoints
  import TK = TxnKeys

  function Encoded(ws: seq<Write>): seq<(Bytes, Option<Bytes>)> {
    seq(|ws|, i requires 0 <= i < |ws| => TK.Encode(ws[i]))
  }

  /** The engine is in order and its key-value contents are the tables. */
  ghost predicate Holds(m: Running, s: Shard) {
    RunningOk(m) && TK.Represents(Contents(m.st.wal), s)
  }

  // ---- What the operations write ----

  predicate Allowed(w: Write) {
    && (w.PutUser? ==> !IsTxnSystemKey(w.key))
    && (w.PutIntent? ==> w.key != [] && !IsSystemKey(w.key))
  }

  lemma {:induction false} AllowedKept(s: Shard, ws: seq<Write>)
    requires IntentsAllowed(s) && forall w :: w in ws ==> Allowed(w)
    ensures IntentsAllowed(ApplyAll(s, ws))
    decreases |ws|
  {
    if ws != [] {
      assert ws[0] in ws;
      AllowedKept(Apply(s, ws[0]), ws[1..]);
    }
  }

  /** Outside a prepare, user keys are written from intents. */
  lemma {:induction false} GuardedAllowed(s: Shard, ws: seq<Write>)
    requires IntentsAllowed(s) && Guarded(s, ws)
    ensures forall w :: w in ws ==> Allowed(w)
    decreases |ws|
  {
    if ws != [] {
      GuardedAllowed(Apply(s, ws[0]), ws[1..]);
      if ws[0].PutUser? {
        var id: TxnId :| CommittingIntent(s, id, ws[0].key, ws[0].val);
        assert (id, ws[0].key) in s.intents;
      }
      assert forall w :: w in ws ==> w == ws[0] || w in ws[1..];
    }
  }

  lemma {:induction false} IntentPutsAllowed(id: TxnId, muts: seq<Mutation>)
    ensures forall w :: w in IntentPuts(id, muts) ==> Allowed(w)
    decreases |muts|
  {
    if muts != [] { IntentPutsAllowed(id, muts[1..]); }
  }

  lemma RowsAllowed(s: Shard, rows: seq<(TxnId, Phase)>)
    requires IntentsAllowed(s) && RecRows(s, rows)
    ensures forall w :: w in RowsScript(s, rows) ==> Allowed(w)
  {
    RowsEffect(s, rows);
    GuardedAllowed(s, RowsScript(s, rows));
  }

  lemma OpAllowed(s: Shard, op: Op)
    requires IntentsAllowed(s) && Runnable(s, op)
    ensures forall w :: w in Script(s, op) ==> Allowed(w)
  {
    if op.Prepare? {
      IntentPutsAllowed(op.id, op.muts);
    } else {
      OpGuarded(s, op);
      GuardedAllowed(s, Script(s, op));
    }
  }

  // ---- Writes as logged puts ----

  /** A logged write acts on the contents as it does on the tables. */
  lemma RecordRepresents(log: seq<Record>, n: nat, s: Shard, w: Write)
    requires TK.Represents(Contents(log), s) && Allowed(w)
    ensures TK.Represents(Contents(log + [Record(n, TK.Encode(w).0, TK.Encode(w).1)]), Apply(s, w))
  {
    var r := Record(n, TK.Encode(w).0, TK.Encode(w).1);
    assert (log + [r])[..|log|] == log;
    TK.WriteRepresented(Contents(log), s, w);
    assert Contents(log + [r]) == SetUser(Contents(log), r.key, r.val);
  }

  lemma {:induction false} LoggedPrefix(st: Store, s: Shard, ws: seq<Write>, i: nat)
    requires TK.Represents(Contents(st.wal), s) && i <= |ws| && forall w :: w in ws ==> Allowed(w)
    ensures TK.Represents(Contents(WriteAll(st, Encoded(ws)[..i]).wal), ApplyAll(s, ws[..i]))
    decreases i
  {
    if i == 0 {
      assert Encoded(ws)[..0] == [] && ws[..0] == [];
    } else {
      LoggedPrefix(st, s, ws, i - 1);
      CP.OneMoreWrite(st, Encoded(ws), i - 1);
      var part := WriteAll(st, Encoded(ws)[..i - 1]);
      assert ws[i - 1] in ws;
      RecordRepresents(part.wal, part.next, ApplyAll(s, ws[..i - 1]), ws[i - 1]);
      LastWrite(s, ws, i - 1);
    }
  }

  lemma LastWrite(s: Shard, ws: seq<Write>, i: nat)
    requires i < |ws|
    ensures ApplyAll(s, ws[..i + 1]) == Apply(ApplyAll(s, ws[..i]), ws[i])
  {
    assert ws[..i + 1] == ws[..i] + [ws[i]];
    ApplyConcat(s, ws[..i], [ws[i]]);
    assert [ws[i]][1..] == [];
  }

  /** The writes run to their end, each a put. */
  function Written(m: Running, ws: seq<Write>): Option<Running> {
    Run(m, CP.CommitEvents(Encoded(ws)))
  }

  /** A crash at disk step `n` of the `i`-th write, and opening crashed as often as there
      are attempts. */
  datatype Outage = Outage(i: nat, n: nat, attempts: seq<set<Path>>)

  function PutOf(w: Write): Job {
    Put(TK.Encode(w).0, TK.Encode(w).1)
  }

  function CrashedIn(m: Running, ws: seq<Write>, o: Outage): Option<Running>
    requires o.i < |ws|
  {
    var part := Written(m, ws[..o.i]);
    if part.None? then None else After(part.value, Crash(PutOf(ws[o.i]), o.n, o.attempts))
  }

  /** The reopened engine; reopening always succeeds, as `CrashInWrites` shows. */
  function Reopened(m: Running, ws: seq<Write>, o: Outage): Running
    requires o.i < |ws|
  {
    match CrashedIn(m, ws, o)
    case Some(r) => r
    case None => m
  }

  /** The writes before the one under way, and that one if its record was synced. */
  function KeptOf(m: Running, ws: seq<Write>, o: Outage): (kept: nat)
    requires o.i < |ws|
    ensures kept <= |ws|
  {
    var part := Written(m, ws[..o.i]);
    if part.None? || Cut(part.value.st, PutOf(ws[o.i]), o.n) < 2 then o.i else o.i + 1
  }

  lemma WritesOnDisk(m: Running, s: Shard, ws: seq<Write>)
    requires Holds(m, s) && forall w :: w in ws ==> Allowed(w)
    ensures Written(m, ws).Some? && Holds(Written(m, ws).value, ApplyAll(s, ws))
  {
    CP.CommitRuns(m, Encoded(ws));
    LoggedPrefix(m.st, s, ws, |ws|);
    assert Encoded(ws)[..|ws|] == Encoded(ws) && ws[..|ws|] == ws;
  }

  lemma CrashInWrites(m: Running, s: Shard, ws: seq<Write>, o: Outage)
    requires Holds(m, s) && o.i < |ws| && forall w :: w in ws ==> Allowed(w)
    ensures CrashedIn(m, ws, o).Some? && Holds(Reopened(m, ws, o), ApplyAll(s, ws[..KeptOf(m, ws, o)]))
  {
    CrashedLog(m, ws, o);
    LoggedPrefix(m.st, s, ws, KeptOf(m, ws, o));
  }

  lemma CrashedLog(m: Running, ws: seq<Write>, o: Outage)
    requires RunningOk(m) && o.i < |ws|
    ensures CrashedIn(m, ws, o).Some? && RunningOk(Reopened(m, ws, o))
    ensures Reopened(m, ws, o).st.wal == WriteAll(m.st, Encoded(ws)[..KeptOf(m, ws, o)]).wal
  {
    assert Encoded(ws)[..o.i] == Encoded(ws[..o.i]);
    CP.CommitRuns(m, Encoded(ws)[..o.i]);
    var part := Written(m, ws[..o.i]).value;
    CrashKept(part, PutOf(ws[o.i]), o.n, o.attempts);
    CP.CommitCrashKeepsPrefix(m, Encoded(ws), o.i, part, o.n, o.attempts);
  }

  // ---- Operations on a site ----

  /** An engine and the tables it holds. */
  datatype Site = Site(engine: Running, shard: Shard)

  ghost predicate SiteOk(x: Site) {
    Holds(x.engine, x.shard) && IntentsAllowed(x.shard)
  }

  function FreshSite(limits: Limits): Site {
    Site(Running(Fresh(limits), map[], {}), Shard(map[], map[], map[], map[]))
  }

  lemma FreshSiteOk(limits: Limits)
    ensures SiteOk(FreshSite(limits))
  {
    FreshEngineRuns(limits);
  }

  function AfterWrites(x: Site, ws: seq<Write>): Site {
    Site(match Written(x.engine, ws) { case Some(r) => r case None => x.engine }, ApplyAll(x.shard, ws))
  }

  function AfterOutage(x: Site, ws: seq<Write>, o: Outage): Site
    requires o.i < |ws|
  {
    Site(Reopened(x.engine, ws, o), ApplyAll(x.shard, ws[..KeptOf(x.engine, ws, o)]))
  }

  /** An operation that runs to its end leaves the engine with the tables its script
      gives. */
  lemma ScriptOnDisk(x: Site, op: Op)
    requires SiteOk(x) && Runnable(x.shard, op)
    ensures Written(x.engine, Script(x.shard, op)).Some? && SiteOk(AfterWrites(x, Script(x.shard, op)))
  {
    OpAllowed(x.shard, op);
    WritesKeepSite(x, Script(x.shard, op));
  }

  lemma WritesKeepSite(x: Site, ws: seq<Write>)
    requires SiteOk(x) && forall w :: w in ws ==> Allowed(w)
    ensures Written(x.engine, ws).Some? && SiteOk(AfterWrites(x, ws))
  {
    WritesOnDisk(x.engine, x.shard, ws);
    AllowedKept(x.shard, ws);
  }

  /** Whatever disk step a two-phase operation crashes at, and however often opening
      crashes after it, the engine reopens and holds the tables behind a prefix of the
      operation's writes. */
  lemma CrashLeavesPrefix(x: Site, op: Op, o: Outage)
    requires SiteOk(x) && Runnable(x.shard, op) && o.i < |Script(x.shard, op)|
    ensures CrashedIn(x.engine, Script(x.shard, op), o).Some? && SiteOk(AfterOutage(x, Script(x.shard, op), o))
  {
    OpAllowed(x.shard, op);
    OutageKeepsSite(x, Script(x.shard, op), o);
  }

  lemma OutageKeepsSite(x: Site, ws: seq<Write>, o: Outage)
    requires SiteOk(x) && o.i < |ws| && forall w :: w in ws ==> Allowed(w)
    ensures CrashedIn(x.engine, ws, o).Some? && SiteOk(AfterOutage(x, ws, o))
  {
    CrashInWrites(x.engine, x.shard, ws, o);
    AllowedKept(x.shard, ws[..KeptOf(x.engine, ws, o)]);
  }

  // ---- Whole histories ----

  /** A two-phase operation that completes, one cut off at a disk step, and a plain write. */
  datatype Move = Ran(op: Op) | Failed(op: Op, outage: Outage) | Wrote(key: Bytes, val: Option<Bytes>)

  predicate MoveOk(s: Shard, mv: Move) {
    match mv
    case Ran(op) => Runnable(s, op)
    case Failed(op, outage) => Runnable(s, op) && outage.i < |Script(s, op)|
    case Wrote(key, _) => !IsSystemKey(key)
  }

  function AfterMove(x: Site, mv: Move): Site
    requires MoveOk(x.shard, mv)
  {
    match mv
    case Ran(op) => AfterWrites(x, Script(x.shard, op))
    case Failed(op, outage) => AfterOutage(x, Script(x.shard, op), outage)
    case Wrote(key, val) => AfterWrites(x, [PutUser(key, val)])
  }

  predicate MovesOk(x: Site, moves: seq<Move>)
    decreases |moves|
  {
    moves == [] || (MoveOk(x.shard, moves[0]) && MovesOk(AfterMove(x, moves[0]), moves[1..]))
  }

  function AfterMoves(x: Site, moves: seq<Move>): Site
    requires MovesOk(x, moves)
    decreases |moves|
  {
    if moves == [] then x else AfterMoves(AfterMove(x, moves[0]), moves[1..])
  }

  lemma MoveKeeps(x: Site, mv: Move)
    requires SiteOk(x) && MoveOk(x.shard, mv)
    ensures SiteOk(AfterMove(x, mv))
  {
    match mv
    case Ran(op) => ScriptOnDisk(x, op);
    case Failed(op, outage) => CrashLeavesPrefix(x, op, outage);
    case Wrote(key, val) => WritesKeepSite(x, [PutUser(key, val)]);
  }

  lemma {:induction false} MovesKeep(x: Site, moves: seq<Move>)
    requires SiteOk(x) && MovesOk(x, moves)
    ensures SiteOk(AfterMoves(x, moves))
    decreases |moves|
  {
    if moves != [] {
      MoveKeeps(x, moves[0]);
      MovesKeep(AfterMove(x, moves[0]), moves[1..]);
    }
  }

  /** From a fresh engine, over any history of two-phase operations, completed or cut off
      at a disk step, and plain writes: latest reads are the values of the tables. */
  lemma ReadsAreTables(limits: Limits, moves: seq<Move>, id: TxnId, k: Bytes)
    requires MovesOk(FreshSite(limits), moves) && !IsTxnSystemKey(k)
    ensures var y := AfterMoves(FreshSite(limits), moves);
            Read(y.engine.st, k, Latest) == UserValue(y.shard, k) && Read(y.engine.st, TK.RecKey(id), Latest) == TK.RecRaw(y.shard, id)
  {
    FreshSiteOk(limits);
    MovesKeep(FreshSite(limits), moves);
    SiteReads(AfterMoves(FreshSite(limits), moves), id, k);
  }

  // ---- Opening with recovery ----

  /** An opening whose recovery, working from the scanned `rows`, crashes in turn. */
  datatype Try = Try(rows: seq<(TxnId, Phase)>, outage: Outage)

  predicate TryOk(s: Shard, t: Try) {
    RecRows(s, t.rows) && t.outage.i < |RowsScript(s, t.rows)|
  }

  function AfterTry(x: Site, t: Try): Site
    requires TryOk(x.shard, t)
  {
    AfterOutage(x, RowsScript(x.shard, t.rows), t.outage)
  }

  predicate TriesOk(x: Site, tries: seq<Try>)
    decreases |tries|
  {
    tries == [] || (TryOk(x.shard, tries[0]) && TriesOk(AfterTry(x, tries[0]), tries[1..]))
  }

  function AfterTries(x: Site, tries: seq<Try>): Site
    requires TriesOk(x, tries)
    decreases |tries|
  {
    if tries == [] then x else AfterTries(AfterTry(x, tries[0]), tries[1..])
  }

  /** Openings that crash on the disk are recoveries that crash between two writes. */
  lemma {:induction false} TriesAreRestarts(x: Site, tries: seq<Try>) returns (rs: seq<Restart>)
    requires SiteOk(x) && TriesOk(x, tries)
    ensures SiteOk(AfterTries(x, tries))
    ensures RestartsOk(x.shard, rs) && AfterTries(x, tries).shard == AfterRestarts(x.shard, rs)
    decreases |tries|
  {
    if tries == [] {
      rs := [];
    } else {
      TryKeeps(x, tries[0]);
      var rest := TriesAreRestarts(AfterTry(x, tries[0]), tries[1..]);
      rs := FirstRestart(x, tries[0], rest);
    }
  }

  lemma TryKeeps(x: Site, t: Try)
    requires SiteOk(x) && TryOk(x.shard, t)
    ensures SiteOk(AfterTry(x, t))
  {
    RowsAllowed(x.shard, t.rows);
    OutageKeepsSite(x, RowsScript(x.shard, t.rows), t.outage);
  }

  lemma FirstRestart(x: Site, t: Try, rest: seq<Restart>) returns (rs: seq<Restart>)
    requires TryOk(x.shard, t) && RestartsOk(AfterTry(x, t).shard, rest)
    ensures RestartsOk(x.shard, rs) && AfterRestarts(x.shard, rs) == AfterRestarts(AfterTry(x, t).shard, rest)
  {
    rs := [Restart(t.rows, KeptOf(x.engine, RowsScript(x.shard, t.rows), t.outage))] + rest;
    assert rs[1..] == rest;
  }

  /** On disk, a commit whose `Committing` mark was synced is applied as a whole: it
      crashes at any disk step, openings crash at any disk steps of their recovery, and
      the first opening to complete reads the record as `Committed` and every key at
      exactly the prepared mutation, or at that of a rival whose commit is settled too. */
  lemma CommitSurvivesOutages(x: Site, id: TxnId, o: Outage, tries: seq<Try>, rows: seq<(TxnId, Phase)>, k: Bytes)
    requires SiteOk(x) && !IsTxnSystemKey(k)
    requires Undecided(x.shard, id) || PhaseOf(x.shard, id) == Some(Committing)
    requires o.i < |CommitScript(x.shard, id)|
    requires Undecided(x.shard, id) ==> KeptOf(x.engine, CommitScript(x.shard, id), o) > 0
    requires var y := AfterOutage(x, CommitScript(x.shard, id), o);
             TriesOk(y, tries) && RecRows(AfterTries(y, tries).shard, rows)
    ensures var y := AfterTries(AfterOutage(x, CommitScript(x.shard, id), o), tries);
            var st := AfterWrites(y, RowsScript(y.shard, rows)).engine.st;
            var v := Read(st, k, Latest);
            && Read(st, TK.RecKey(id), Latest) == Some([TK.StateByte(Committed)])
            && (v == (if (id, k) in x.shard.intents then x.shard.intents[(id, k)] else UserValue(x.shard, k))
                || Rival(x.shard, id, k, v))
  {
    var y := AfterOutage(x, CommitScript(x.shard, id), o);
    CrashLeavesPrefix(x, Commit(id), o);
    var rs := TriesAreRestarts(y, tries);
    RecoveredReads(AfterTries(y, tries), rows, id, k);
    CommitIsAllOrNothing(x.shard, id, KeptOf(x.engine, CommitScript(x.shard, id), o), rs, rows, k);
  }

  lemma RecoveredReads(x: Site, rows: seq<(TxnId, Phase)>, id: TxnId, k: Bytes)
    requires SiteOk(x) && RecRows(x.shard, rows) && !IsTxnSystemKey(k)
    ensures var y := AfterWrites(x, RowsScript(x.shard, rows));
            Read(y.engine.st, k, Latest) == UserValue(y.shard, k) && Read(y.engine.st, TK.RecKey(id), Latest) == TK.RecRaw(y.shard, id)
  {
    RowsAllowed(x.shard, rows);
    WritesRead(x, RowsScript(x.shard, rows), id, k);
  }

  lemma WritesRead(x: Site, ws: seq<Write>, id: TxnId, k: Bytes)
    requires SiteOk(x) && !IsTxnSystemKey(k) && forall w :: w in ws ==> Allowed(w)
    ensures var y := AfterWrites(x, ws);
            Read(y.engine.st, k, Latest) == UserValue(y.shard, k) && Read(y.engine.st, TK.RecKey(id), Latest) == TK.RecRaw(y.shard, id)
  {
    WritesKeepSite(x, ws);
    SiteReads(AfterWrites(x, ws), id, k);
  }

  lemma SiteReads(x: Site, id: TxnId, k: Bytes)
    requires SiteOk(x) && !IsTxnSystemKey(k)
    ensures Read(x.engine.st, k, Latest) == UserValue(x.shard, k)
    ensures Read(x.engine.st, TK.RecKey(id), Latest) == TK.RecRaw(x.shard, id)
  {
    LatestReadRefinesLog(x.engine.st, k);
    LatestReadRefinesLog(x.engine.st, TK.RecKey(id));
    assert TK.At(Contents(x.engine.st.wal), k) == UserValue(x.shard, k);
    assert TK.At(Contents(x.engine.st.wal), TK.RecKey(id)) == TK.RecRaw(x.shard, id);
  }
}
