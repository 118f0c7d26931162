/** The memtable beside the store: over every run, crashes included, its ordered items
    and byte count are the store's memtable and byte count. */
module MemtableRuns {
  import opened ByteStrings
  import opened Versions
  import opened WriteAheadLog
  import opened Storage
  import opened SimDisk
  import opened CrashRecovery
  import M = Memtable

  ghost predicate Mirrors(items: seq<M.Item>, st: Store) {
    M.Ordered(items) && M.TableOf(items) == st.mem && M.TotalSize(items) == st.memBytes
  }

  function Written(items: seq<M.Item>, r: Record): seq<M.Item> {
    M.Inserted(items, M.Item(Key(r.key, r.sequence), r.val))
  }

  /** Replay of a log into an empty memtable. */
  function Replayed(log: seq<Record>): seq<M.Item> {
    if log == [] then [] else Written(Replayed(log[..|log| - 1]), log[|log| - 1])
  }

  /** A write goes into the memtable, which is replaced once its own byte count reaches
      the limit; a flush replaces it; reopening replays the log. */
  function ItemsAfter(items: seq<M.Item>, m: Running, e: Event): seq<M.Item>
    requires After(m, e).Some?
  {
    match e
    case Done(Put(k, v)) =>
      var more, max := Written(items, Record(m.st.next, k, v)), m.st.limits.memtableMaxBytes;
      if 0 < max <= M.TotalSize(more) then [] else more
    case Done(FlushNow) => []
    case Done(_) => items
    case Crash(_, _, _) => Replayed(After(m, e).value.st.wal)
  }

  function ItemsRun(items: seq<M.Item>, m: Running, events: seq<Event>): seq<M.Item>
    requires Run(m, events).Some?
    decreases |events|
  {
    if events == [] then items
    else ItemsRun(ItemsAfter(items, m, events[0]), After(m, events[0]).value, events[1..])
  }

  /** A new key adds exactly its own size. */
  lemma WrittenFresh(items: seq<M.Item>, r: Record)
    requires M.Ordered(items) && Key(r.key, r.sequence) !in M.TableOf(items)
    ensures var more := Written(items, r);
            && M.Ordered(more) && M.TableOf(more) == M.TableOf(items)[Key(r.key, r.sequence) := r.val]
            && M.TotalSize(more) == M.TotalSize(items) + EntrySize(r.key, r.val)
  {
    var it := M.Item(Key(r.key, r.sequence), r.val);
    M.InsertedOk(items, it);
    M.SizeAfterInsert(items, it);
  }

  lemma {:induction false} ReplayMirrors(log: seq<Record>)
    requires Increasing(log)
    ensures M.Ordered(Replayed(log)) && M.TableOf(Replayed(log)) == LogTable(log) && M.TotalSize(Replayed(log)) == LogBytes(log)
    decreases |log|
  {
    if log != [] {
      var before, r := log[..|log| - 1], log[|log| - 1];
      ReplayMirrors(before);
      assert Key(r.key, r.sequence) !in LogTable(before) by {
        if Key(r.key, r.sequence) in LogTable(before) { BelowLast(before, Key(r.key, r.sequence)); }
      }
      WrittenFresh(Replayed(before), r);
    }
  }

  lemma SomethingHeld(items: seq<M.Item>)
    requires items != []
    ensures M.TableOf(items) != map[]
  {
    assert items[0].key in M.TableOf(items);
  }

  lemma PutMirrors(items: seq<M.Item>, m: Running, k: Bytes, v: Option<Bytes>)
    requires StoreOk(m.st) && Mirrors(items, m.st)
    ensures Mirrors(ItemsAfter(items, m, Done(Put(k, v))), WriteRaw(m.st, k, v))
  {
    NextIsFresh(m.st);
    WrittenFresh(items, Record(m.st.next, k, v));
    assert Key(k, m.st.next) in Append(m.st, k, v).mem;
  }

  lemma JobMirrors(items: seq<M.Item>, m: Running, job: Job)
    requires StoreOk(m.st) && Mirrors(items, m.st)
    ensures Mirrors(ItemsAfter(items, m, Done(job)), Result(m.st, job))
  {
    match job
    case Put(k, v) => PutMirrors(items, m, k, v);
    case FlushNow =>
      if items != [] { SomethingHeld(items); }
    case _ =>
  }

  lemma CrashMirrors(items: seq<M.Item>, m: Running, job: Job, n: nat, attempts: seq<set<Path>>)
    requires After(m, Crash(job, n, attempts)).Some? && LogOk(After(m, Crash(job, n, attempts)).value.st)
    ensures Mirrors(ItemsAfter(items, m, Crash(job, n, attempts)), After(m, Crash(job, n, attempts)).value.st)
  {
    ReplayMirrors(After(m, Crash(job, n, attempts)).value.st.wal);
  }

  lemma {:induction false} RunMirrors(items: seq<M.Item>, m: Running, events: seq<Event>)
    requires RunningOk(m) && Mirrors(items, m.st) && Run(m, events).Some?
    ensures Mirrors(ItemsRun(items, m, events), Run(m, events).value.st)
    decreases |events|
  {
    if events != [] {
      match events[0] {
        case Done(job) =>
          DoneKeeps(m, job);
          JobMirrors(items, m, job);
        case Crash(job, n, attempts) =>
          CrashKept(m, job, n, attempts);
          CrashMirrors(items, m, job, n, attempts);
      }
      RunMirrors(ItemsAfter(items, m, events[0]), After(m, events[0]).value, events[1..]);
    }
  }

  /** From a fresh engine, over writes, flushes, compactions and crashes: the memtable's
      seek answers as the store's memtable does, and its byte count is the one that
      decides when to flush. */
  lemma MemtableFollowsStore(limits: Limits, events: seq<Event>, k: Bytes, b: Bound)
    ensures var m := Running(Fresh(limits), map[], {});
            var r := Run(m, events);
            && r.Some?
            && var items := ItemsRun([], m, events);
               && M.Ordered(items) && M.TotalSize(items) == r.value.st.memBytes
               && M.SeekGet(items, k, b) == GetAt(r.value.st.mem, k, b)
  {
    var m := Running(Fresh(limits), map[], {});
    FreshEngineRuns(limits);
    RunKeepsOk(m, events);
    RunMirrors([], m, events);
    M.SeekFindsNewest(ItemsRun([], m, events), k, b);
  }
}
