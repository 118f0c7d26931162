/** The client's cache of range descriptors. */
module RangeCache {
  import opened ByteStrings

  datatype Range = Range(id: nat, epoch: nat, group: nat, start: Bytes, end: Bytes)

  datatype Cache = Cache(metaEpoch: nat, ranges: seq<Range>)

  /** Half-open interval; an empty end key is unbounded. */
  predicate Covers(r: Range, k: Bytes) {
    !Less(k, r.start) && (r.end == [] || Less(k, r.end))
  }

  predicate Overlap(a: Range, b: Range) {
    (b.end == [] || Less(a.start, b.end)) && (a.end == [] || Less(b.start, a.end))
  }

  function Lookup(ranges: seq<Range>, k: Bytes): Option<nat> {
    if ranges == [] then None
    else if Covers(ranges[0], k) then Some(ranges[0].group)
    else Lookup(ranges[1..], k)
  }

  predicate Displaces(nr: Range, r: Range) {
    r.id == nr.id || Overlap(r, nr)
  }

  function Kept(ranges: seq<Range>, nr: Range): seq<Range> {
    if ranges == [] then []
    else if Displaces(nr, ranges[0]) then Kept(ranges[1..], nr)
    else [ranges[0]] + Kept(ranges[1..], nr)
  }

  function Reported(ranges: seq<Range>, batch: seq<Range>): seq<Range>
    decreases |batch|
  {
    if batch == [] then ranges else Reported(Kept(ranges, batch[0]) + [batch[0]], batch[1..])
  }

  /** Stable: a range goes before those with an equal start. */
  function Inserted(r: Range, ranges: seq<Range>): seq<Range> {
    if ranges == [] || LessEq(r.start, ranges[0].start) then [r] + ranges
    else [ranges[0]] + Inserted(r, ranges[1..])
  }

  function SortByStart(ranges: seq<Range>): seq<Range> {
    if ranges == [] then [] else Inserted(ranges[0], SortByStart(ranges[1..]))
  }

  function Applied(c: Cache, metaEpoch: nat, batch: seq<Range>): Cache {
    Cache(if metaEpoch > c.metaEpoch then metaEpoch else c.metaEpoch, SortByStart(Reported(c.ranges, batch)))
  }

  // ---- What the cache keeps ----

  predicate Apart(a: Range, b: Range) {
    a.id != b.id && !Overlap(a, b)
  }

  ghost predicate AllApart(ranges: seq<Range>) {
    forall i, j :: 0 <= i < j < |ranges| ==> Apart(ranges[i], ranges[j])
  }

  ghost predicate ByStart(ranges: seq<Range>) {
    forall i, j :: 0 <= i < j < |ranges| ==> LessEq(ranges[i].start, ranges[j].start)
  }

  ghost predicate SameMembers(a: seq<Range>, b: seq<Range>) {
    forall r :: r in a <==> r in b
  }

  lemma CoveringOverlaps(a: Range, b: Range, k: Bytes)
    requires Covers(a, k) && Covers(b, k)
    ensures Overlap(a, b)
  {
    LessTotal(a.start, k);
    LessTotal(b.start, k);
    if b.end != [] && a.start != k { LessTransitive(a.start, k, b.end); }
    if a.end != [] && b.start != k { LessTransitive(b.start, k, a.end); }
  }

  lemma {:induction false} KeptMembers(ranges: seq<Range>, nr: Range, r: Range)
    ensures r in Kept(ranges, nr) <==> r in ranges && !Displaces(nr, r)
  {
    if ranges != [] { KeptMembers(ranges[1..], nr, r); }
  }

  lemma {:induction false} KeptApart(ranges: seq<Range>, nr: Range)
    requires AllApart(ranges)
    ensures AllApart(Kept(ranges, nr))
  {
    if ranges != [] {
      var rest := ranges[1..];
      KeptApart(rest, nr);
      forall r | r in Kept(rest, nr) ensures Apart(ranges[0], r) {
        KeptMembers(rest, nr, r);
        var j :| 0 <= j < |rest| && rest[j] == r;
        assert Apart(ranges[0], ranges[j + 1]);
      }
    }
  }

  lemma ReportOne(ranges: seq<Range>, nr: Range)
    requires AllApart(ranges)
    ensures AllApart(Kept(ranges, nr) + [nr])
  {
    KeptApart(ranges, nr);
    forall r | r in Kept(ranges, nr) ensures Apart(r, nr) {
      KeptMembers(ranges, nr, r);
    }
  }

  lemma {:induction false} ReportedApart(ranges: seq<Range>, batch: seq<Range>)
    requires AllApart(ranges)
    ensures AllApart(Reported(ranges, batch))
    decreases |batch|
  {
    if batch != [] {
      ReportOne(ranges, batch[0]);
      ReportedApart(Kept(ranges, batch[0]) + [batch[0]], batch[1..]);
    }
  }

  lemma {:induction false} InsertedMembers(r: Range, ranges: seq<Range>)
    ensures forall x :: x in Inserted(r, ranges) <==> x == r || x in ranges
  {
    if ranges != [] && !LessEq(r.start, ranges[0].start) {
      InsertedMembers(r, ranges[1..]);
      assert forall x :: x in ranges <==> x == ranges[0] || x in ranges[1..];
    }
  }

  ghost predicate ApartFromAll(r: Range, ranges: seq<Range>) {
    forall x :: x in ranges ==> Apart(r, x) && Apart(x, r)
  }

  lemma ConsApart(r: Range, ranges: seq<Range>)
    requires AllApart(ranges) && ApartFromAll(r, ranges)
    ensures AllApart([r] + ranges)
  {
  }

  lemma HeadApart(ranges: seq<Range>)
    requires ranges != [] && AllApart(ranges)
    ensures ApartFromAll(ranges[0], ranges[1..]) && AllApart(ranges[1..])
  {
  }

  lemma {:induction false} InsertedOk(r: Range, ranges: seq<Range>)
    requires AllApart(ranges) && ApartFromAll(r, ranges) && ByStart(ranges)
    ensures AllApart(Inserted(r, ranges)) && ByStart(Inserted(r, ranges))
  {
    if ranges == [] || LessEq(r.start, ranges[0].start) {
      ConsApart(r, ranges);
      InsertedFront(r, ranges);
    } else {
      var rest := ranges[1..];
      HeadApart(ranges);
      InsertedOk(r, rest);
      InsertedMembers(r, rest);
      assert ApartFromAll(ranges[0], Inserted(r, rest));
      ConsApart(ranges[0], Inserted(r, rest));
      LessTotal(r.start, ranges[0].start);
      InsertedBehind(ranges[0], Inserted(r, rest), r, rest);
    }
  }

  lemma InsertedFront(r: Range, ranges: seq<Range>)
    requires ByStart(ranges) && (ranges == [] || LessEq(r.start, ranges[0].start))
    ensures ByStart([r] + ranges)
  {
    forall j | 0 <= j < |ranges| ensures LessEq(r.start, ranges[j].start) {
      if j > 0 && r.start != ranges[0].start && ranges[0].start != ranges[j].start {
        LessTransitive(r.start, ranges[0].start, ranges[j].start);
      }
    }
  }

  lemma InsertedBehind(first: Range, inserted: seq<Range>, r: Range, rest: seq<Range>)
    requires ByStart(inserted) && ByStart([first] + rest) && LessEq(first.start, r.start)
    requires forall x :: x in inserted <==> x == r || x in rest
    ensures ByStart([first] + inserted)
  {
    forall j | 0 <= j < |inserted| ensures LessEq(first.start, inserted[j].start) {
      assert inserted[j] in inserted;
      if inserted[j] != r {
        var i :| 0 <= i < |rest| && rest[i] == inserted[j];
        assert ([first] + rest)[0] == first && ([first] + rest)[i + 1] == rest[i];
      }
    }
  }

  lemma {:induction false} SortedOk(ranges: seq<Range>)
    requires AllApart(ranges)
    ensures AllApart(SortByStart(ranges)) && ByStart(SortByStart(ranges)) && SameMembers(SortByStart(ranges), ranges)
    decreases |ranges|
  {
    if ranges != [] {
      HeadApart(ranges);
      SortedOk(ranges[1..]);
      InsertedOk(ranges[0], SortByStart(ranges[1..]));
      InsertedMembers(ranges[0], SortByStart(ranges[1..]));
      assert forall x :: x in ranges <==> x == ranges[0] || x in ranges[1..];
    }
  }

  // ---- What was reported ----

  /** `r` was reported and nothing reported later displaces it. */
  predicate Alive(history: seq<Range>, r: Range) {
    history != [] &&
    var last := history[|history| - 1];
    (r == last || (Alive(history[..|history| - 1], r) && !Displaces(last, r)))
  }

  /** The last reported descriptor covering the key. */
  function LastCovering(history: seq<Range>, k: Bytes): Option<Range> {
    if history == [] then None
    else if Covers(history[|history| - 1], k) then Some(history[|history| - 1])
    else LastCovering(history[..|history| - 1], k)
  }

  lemma {:induction false} AliveIsLastCovering(history: seq<Range>, r: Range, k: Bytes)
    requires Alive(history, r) && Covers(r, k)
    ensures LastCovering(history, k) == Some(r)
  {
    var last := history[|history| - 1];
    if r != last {
      if Covers(last, k) {
        CoveringOverlaps(r, last, k);
      } else {
        AliveIsLastCovering(history[..|history| - 1], r, k);
      }
    }
  }

  lemma {:induction false} LastCoveringCovers(history: seq<Range>, k: Bytes)
    ensures LastCovering(history, k).Some? ==> Covers(LastCovering(history, k).value, k)
  {
    if history != [] { LastCoveringCovers(history[..|history| - 1], k); }
  }

  ghost predicate Holds(ranges: seq<Range>, history: seq<Range>) {
    forall r :: r in ranges <==> Alive(history, r)
  }

  lemma {:induction false} ReportedHolds(ranges: seq<Range>, history: seq<Range>, batch: seq<Range>)
    requires Holds(ranges, history)
    ensures Holds(Reported(ranges, batch), history + batch)
    decreases |batch|
  {
    if batch == [] {
      assert history + batch == history;
    } else {
      var nr := batch[0];
      var more := history + [nr];
      assert more[..|more| - 1] == history;
      forall r ensures r in Kept(ranges, nr) + [nr] <==> Alive(more, r) {
        KeptMembers(ranges, nr, r);
      }
      ReportedHolds(Kept(ranges, nr) + [nr], more, batch[1..]);
      assert history + batch == more + batch[1..];
    }
  }

  type Batches = seq<(nat, seq<Range>)>

  function Run(batches: Batches): Cache {
    if batches == [] then Cache(0, [])
    else Applied(Run(batches[..|batches| - 1]), batches[|batches| - 1].0, batches[|batches| - 1].1)
  }

  function History(batches: Batches): seq<Range> {
    if batches == [] then [] else History(batches[..|batches| - 1]) + batches[|batches| - 1].1
  }

  /** From an empty cache the ranges stay sorted by start and pairwise disjoint, and are
      exactly the reported descriptors nothing later displaced. */
  lemma {:induction false} CacheInvariant(batches: Batches)
    ensures AllApart(Run(batches).ranges) && ByStart(Run(batches).ranges) && Holds(Run(batches).ranges, History(batches))
    decreases |batches|
  {
    if batches != [] {
      var init, batch := batches[..|batches| - 1], batches[|batches| - 1].1;
      CacheInvariant(init);
      ReportedApart(Run(init).ranges, batch);
      ReportedHolds(Run(init).ranges, History(init), batch);
      SortedOk(Reported(Run(init).ranges, batch));
    }
  }

  lemma {:induction false} LookupFinds(ranges: seq<Range>, k: Bytes)
    ensures Lookup(ranges, k).None? ==> forall r :: r in ranges ==> !Covers(r, k)
    ensures Lookup(ranges, k).Some? ==> exists r :: r in ranges && Covers(r, k) && r.group == Lookup(ranges, k).value
  {
    if ranges != [] {
      if Covers(ranges[0], k) {
        assert ranges[0] in ranges;
      } else {
        LookupFinds(ranges[1..], k);
      }
    }
  }

  /** A lookup succeeds exactly when the last reported descriptor covering the key has
      not been displaced since, and then returns that descriptor's group: it is never stale. */
  lemma NeverStale(batches: Batches, k: Bytes)
    ensures var last := LastCovering(History(batches), k);
            Lookup(Run(batches).ranges, k) ==
            if last.Some? && Alive(History(batches), last.value) then Some(last.value.group) else None
  {
    var ranges, history := Run(batches).ranges, History(batches);
    var last := LastCovering(history, k);
    CacheInvariant(batches);
    LookupFinds(ranges, k);
    LastCoveringCovers(history, k);
    assert last.Some? && Alive(history, last.value) ==> last.value in ranges;
    if Lookup(ranges, k).Some? {
      var r :| r in ranges && Covers(r, k) && r.group == Lookup(ranges, k).value;
      AliveIsLastCovering(history, r, k);
    }
  }

  // ---- The cache in place ----

  class RangeCache {
    var metaEpoch: nat
    var ranges: seq<Range>

    ghost function View(): Cache
      reads this
    {
      Cache(metaEpoch, ranges)
    }

    constructor ()
      ensures View() == Cache(0, [])
    {
      metaEpoch, ranges := 0, [];
    }

    method LookupGroup(k: Bytes) returns (r: Option<nat>)
      ensures r == Lookup(ranges, k)
    {
      assert ranges[0..] == ranges;
      for i := 0 to |ranges|
        invariant Lookup(ranges, k) == Lookup(ranges[i..], k)
      {
        assert ranges[i..][1..] == ranges[i + 1..];
        if Less(k, ranges[i].start) {
          continue;
        }
        if ranges[i].end == [] || Less(k, ranges[i].end) {
          return Some(ranges[i].group);
        }
      }
      r := None;
    }

    method ApplyDescriptors(epoch: nat, batch: seq<Range>)
      modifies this
      ensures View() == Applied(old(View()), epoch, batch)
    {
      if epoch > metaEpoch {
        metaEpoch := epoch;
      }
      assert batch[0..] == batch;
      for i := 0 to |batch|
        invariant metaEpoch == Applied(old(View()), epoch, batch).metaEpoch
        invariant Reported(ranges, batch[i..]) == Reported(old(ranges), batch)
      {
        assert batch[i..][1..] == batch[i + 1..];
        var kept := Retain(ranges, batch[i]);
        ranges := kept + [batch[i]];
      }
      ranges := SortByStart(ranges);
    }
  }

  method Retain(ranges: seq<Range>, nr: Range) returns (kept: seq<Range>)
    ensures kept == Kept(ranges, nr)
  {
    kept := [];
    assert ranges[0..] == ranges;
    for i := 0 to |ranges|
      invariant kept + Kept(ranges[i..], nr) == Kept(ranges, nr)
    {
      assert ranges[i..][1..] == ranges[i + 1..];
      if ranges[i].id != nr.id && !Overlap(ranges[i], nr) {
        kept := kept + [ranges[i]];
      }
    }
  }
}
