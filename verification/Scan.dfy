/** Prefix scan: rows of every source merged into a bounded window that drops its
    largest key when it overflows, then emitted under the result and byte caps. */
module Scan {
  import opened ByteStrings
  import opened Versions
  import opened WriteAheadLog
  import opened Storage
  import opened Database

  datatype Row = Row(key: Bytes, hit: Hit)
  type Window = map<Bytes, Hit>

  // ---- The bounded window ----

  /** Insert the row unless the key already has an equal or newer one, then drop the
      last key if the window is over its bound. */
  function Offer(w: Window, r: Row, max: nat): Window {
    if r.key in w && w[r.key].sequence >= r.hit.sequence then w else
      var w1 := w[r.key := r.hit];
      if |w1| > max then w1 - {Greatest(w1.Keys)} else w1
  }

  function KeysOf(rows: seq<Row>): set<Bytes> {
    set r | r in rows :: r.key
  }

  /** `h` is among the rows of `k` and no row of `k` is newer. */
  ghost predicate IsBest(rows: seq<Row>, k: Bytes, h: Hit) {
    Row(k, h) in rows && forall r :: r in rows && r.key == k ==> r.hit.sequence <= h.sequence
  }

  ghost predicate AllBest(w: Window, rows: seq<Row>) {
    forall k :: k in w ==> IsBest(rows, k, w[k])
  }

  /** The window holds the `max` smallest keys offered so far, each with its newest row. */
  ghost predicate IsWindow(w: Window, rows: seq<Row>, max: nat) {
    && w.Keys <= KeysOf(rows) && |w| <= max
    && (w.Keys == KeysOf(rows) || |w| == max)
    && (forall k, x :: k in w && x in KeysOf(rows) && x !in w ==> Less(k, x))
    && AllBest(w, rows)
  }

  lemma KeysOfAppend(rows: seq<Row>, r: Row)
    ensures KeysOf(rows + [r]) == KeysOf(rows) + {r.key}
  {
  }

  lemma BestAfterAppend(rows: seq<Row>, r: Row, k: Bytes, h: Hit)
    requires IsBest(rows, k, h) && (r.key == k ==> r.hit.sequence <= h.sequence)
    ensures IsBest(rows + [r], k, h)
  {
  }

  /** A key that fell out of a full window falls out again when offered again. */
  lemma OfferDropped(w: Window, rows: seq<Row>, r: Row, max: nat)
    requires IsWindow(w, rows, max) && r.key !in w && r.key in KeysOf(rows)
    ensures Offer(w, r, max) == w
  {
    var w1 := w[r.key := r.hit];
    SizeAfterInsert(w, r.key, r.hit);
    FullBelow(w, rows, r.key, max);
    OnTop(w.Keys, r.key);
    assert w1.Keys == w.Keys + {r.key};
    assert w1 - {r.key} == w;
  }

  lemma FullBelow(w: Window, rows: seq<Row>, k: Bytes, max: nat)
    requires IsWindow(w, rows, max) && k in KeysOf(rows) && k !in w
    ensures |w| == max && forall a :: a in w.Keys ==> Less(a, k)
  {
  }

  lemma OnTop(keys: set<Bytes>, k: Bytes)
    requires forall a :: a in keys ==> Less(a, k)
    ensures Greatest(keys + {k}) == k
  {
    var g := Greatest(keys + {k});
    if g != k {
      assert g in keys;
      LessAsymmetric(g, k);
    }
  }

  lemma OfferFits(w: Window, rows: seq<Row>, r: Row, max: nat)
    requires IsWindow(w, rows, max) && r.key !in w && r.key !in KeysOf(rows) && |w| < max
    ensures IsWindow(Offer(w, r, max), rows + [r], max)
  {
    SizeAfterInsert(w, r.key, r.hit);
    KeysOfAppend(rows, r);
    OverflowBest(w, rows, r);
  }

  /** Dropping the greatest of a window plus one new key leaves only smaller keys inside. */
  lemma OverflowOrder(inside: set<Bytes>, all: set<Bytes>, k: Bytes, g: Bytes)
    requires inside <= all && k !in all && IsGreatest(g, inside + {k})
    requires forall a, x :: a in inside && x in all && x !in inside ==> Less(a, x)
    ensures forall a, x :: a in inside + {k} - {g} && x in all + {k} && x !in inside + {k} - {g} ==> Less(a, x)
  {
    var kept := inside + {k} - {g};
    forall a, x | a in kept && x in all + {k} && x !in kept ensures Less(a, x) {
      assert LessEq(a, g) && a != g;
      if x != g && g in inside {
        LessTransitive(a, g, x);
      }
    }
  }

  lemma OverflowBest(w: Window, rows: seq<Row>, r: Row)
    requires AllBest(w, rows) && r.key !in KeysOf(rows) && r.key !in w
    ensures AllBest(w[r.key := r.hit], rows + [r])
  {
  }

  lemma SizeAfterReplace(w: Window, k: Bytes, h: Hit)
    requires k in w
    ensures w[k := h].Keys == w.Keys && |w[k := h]| == |w|
  {
  }

  lemma SizeAfterInsert(w: Window, k: Bytes, h: Hit)
    requires k !in w
    ensures w[k := h].Keys == w.Keys + {k} && |w[k := h]| == |w| + 1
  {
  }

  lemma SizeAfterDrop(w: Window, g: Bytes)
    requires g in w
    ensures (w - {g}).Keys == w.Keys - {g} && |w - {g}| == |w| - 1
  {
  }

  lemma OfferOverflows(w: Window, rows: seq<Row>, r: Row, max: nat)
    requires IsWindow(w, rows, max) && r.key !in w && r.key !in KeysOf(rows) && |w| == max
    ensures IsWindow(Offer(w, r, max), rows + [r], max)
  {
    var w1 := w[r.key := r.hit];
    SizeAfterInsert(w, r.key, r.hit);
    var g := Greatest(w1.Keys);
    SizeAfterDrop(w1, g);
    KeysOfAppend(rows, r);
    OverflowOrder(w.Keys, KeysOf(rows), r.key, g);
    OverflowBest(w, rows, r);
    var w2 := w1 - {g};
    assert AllBest(w2, rows + [r]);
  }

  lemma ReplaceBest(w: Window, rows: seq<Row>, r: Row)
    requires AllBest(w, rows) && r.key in w
    ensures w[r.key].sequence >= r.hit.sequence ==> AllBest(w, rows + [r])
    ensures w[r.key].sequence < r.hit.sequence ==> AllBest(w[r.key := r.hit], rows + [r])
  {
  }

  lemma OfferReplaces(w: Window, rows: seq<Row>, r: Row, max: nat)
    requires IsWindow(w, rows, max) && r.key in w
    ensures IsWindow(Offer(w, r, max), rows + [r], max)
  {
    KeysOfAppend(rows, r);
    assert KeysOf(rows + [r]) == KeysOf(rows);
    SizeAfterReplace(w, r.key, r.hit);
    ReplaceBest(w, rows, r);
  }

  lemma DroppedKeepsWindow(w: Window, rows: seq<Row>, r: Row, max: nat)
    requires IsWindow(w, rows, max) && r.key !in w && r.key in KeysOf(rows)
    ensures IsWindow(w, rows + [r], max)
  {
    KeysOfAppend(rows, r);
    assert KeysOf(rows + [r]) == KeysOf(rows);
    forall k | k in w ensures IsBest(rows + [r], k, w[k]) {
      BestAfterAppend(rows, r, k, w[k]);
    }
  }

  /** Pruning the largest key never loses or resurrects a version of a smaller one. */
  lemma OfferKeepsWindow(w: Window, rows: seq<Row>, r: Row, max: nat)
    requires IsWindow(w, rows, max)
    ensures IsWindow(Offer(w, r, max), rows + [r], max)
  {
    if r.key in w {
      OfferReplaces(w, rows, r, max);
    } else if r.key in KeysOf(rows) {
      OfferDropped(w, rows, r, max);
      DroppedKeepsWindow(w, rows, r, max);
    } else if |w| < max {
      OfferFits(w, rows, r, max);
    } else {
      OfferOverflows(w, rows, r, max);
    }
  }

  // ---- Rows of one source ----

  function UsersUnder(t: Table, prefix: Bytes): set<Bytes> {
    set q | q in t && HasPrefix(q.user, prefix) :: q.user
  }

  function VersionRows(k: Bytes, vs: seq<Hit>): seq<Row> {
    seq(|vs|, i requires 0 <= i < |vs| => Row(k, vs[i]))
  }

  function RawRows(t: Table, keys: seq<Bytes>): seq<Row> {
    if keys == [] then [] else VersionRows(keys[0], VersionList(t, keys[0])) + RawRows(t, keys[1..])
  }

  /** Memtable: all versions under the prefix, by key, newest first. */
  function RawScanPrefix(t: Table, prefix: Bytes): seq<Row> {
    RawRows(t, Sorted(UsersUnder(t, prefix)))
  }

  function NewestRows(t: Table, keys: seq<Bytes>, b: Bound): seq<Row> {
    if keys == [] then [] else
      var h := GetAt(t, keys[0], b);
      (if h.Some? then [Row(keys[0], h.value)] else []) + NewestRows(t, keys[1..], b)
  }

  /** SSTable: the newest visible version of every key under the prefix. */
  function ScanPrefixAt(t: Table, prefix: Bytes, b: Bound): seq<Row> {
    NewestRows(t, Sorted(UsersUnder(t, prefix)), b)
  }

  /** Rows of `t` only, all visible, all under the prefix. */
  ghost predicate RowsFrom(rows: seq<Row>, t: Table, prefix: Bytes, b: Bound) {
    forall r :: r in rows ==>
      && Key(r.key, r.hit.sequence) in t && t[Key(r.key, r.hit.sequence)] == r.hit.val
      && HasPrefix(r.key, prefix) && Within(r.hit.sequence, b)
  }

  /** The newest visible version of every key of `t` under the prefix is a row. */
  ghost predicate RowsCover(rows: seq<Row>, t: Table, prefix: Bytes, b: Bound) {
    forall k :: HasPrefix(k, prefix) && GetAt(t, k, b).Some? ==> Row(k, GetAt(t, k, b).value) in rows
  }

  lemma {:induction false} NewestRowsMember(t: Table, keys: seq<Bytes>, b: Bound, r: Row)
    ensures r in NewestRows(t, keys, b) <==> r.key in keys && GetAt(t, r.key, b) == Some(r.hit)
  {
    if keys != [] {
      NewestRowsMember(t, keys[1..], b, r);
    }
  }

  lemma {:induction false} RawRowsMember(t: Table, keys: seq<Bytes>, r: Row)
    ensures r in RawRows(t, keys) <==> r.key in keys && r.hit in VersionList(t, r.key)
  {
    if keys != [] {
      RawRowsMember(t, keys[1..], r);
      var vs := VersionList(t, keys[0]);
      if r.key == keys[0] && r.hit in vs {
        var i :| 0 <= i < |vs| && vs[i] == r.hit;
        assert VersionRows(keys[0], vs)[i] == r;
      }
    }
  }

  lemma VersionListMember(t: Table, k: Bytes, h: Hit)
    ensures h in VersionList(t, k) <==> Key(k, h.sequence) in t && t[Key(k, h.sequence)] == h.val
  {
  }

  lemma ScanPrefixAtExact(t: Table, prefix: Bytes, b: Bound)
    ensures RowsFrom(ScanPrefixAt(t, prefix, b), t, prefix, b) && RowsCover(ScanPrefixAt(t, prefix, b), t, prefix, b)
  {
    var keys, rows := Sorted(UsersUnder(t, prefix)), ScanPrefixAt(t, prefix, b);
    forall r | r in rows
      ensures Key(r.key, r.hit.sequence) in t && t[Key(r.key, r.hit.sequence)] == r.hit.val
      ensures HasPrefix(r.key, prefix) && Within(r.hit.sequence, b)
    {
      NewestRowsMember(t, keys, b, r);
    }
    forall k | HasPrefix(k, prefix) && GetAt(t, k, b).Some? ensures Row(k, GetAt(t, k, b).value) in rows {
      NewestRowsMember(t, keys, b, Row(k, GetAt(t, k, b).value));
      assert Key(k, GetAt(t, k, b).value.sequence).user in UsersUnder(t, prefix);
    }
  }

  function VisibleRows(rows: seq<Row>, b: Bound): seq<Row> {
    if rows == [] then [] else
      (if Within(rows[0].hit.sequence, b) then [rows[0]] else []) + VisibleRows(rows[1..], b)
  }

  lemma {:induction false} VisibleRowsMember(rows: seq<Row>, b: Bound, r: Row)
    ensures r in VisibleRows(rows, b) <==> r in rows && Within(r.hit.sequence, b)
  {
    if rows != [] {
      VisibleRowsMember(rows[1..], b, r);
    }
  }

  lemma RawScanExact(t: Table, prefix: Bytes, b: Bound)
    ensures var rows := VisibleRows(RawScanPrefix(t, prefix), b);
            RowsFrom(rows, t, prefix, b) && RowsCover(rows, t, prefix, b)
  {
    var keys, raw := Sorted(UsersUnder(t, prefix)), RawScanPrefix(t, prefix);
    var rows := VisibleRows(raw, b);
    forall r | r in rows
      ensures Key(r.key, r.hit.sequence) in t && t[Key(r.key, r.hit.sequence)] == r.hit.val
      ensures HasPrefix(r.key, prefix) && Within(r.hit.sequence, b)
    {
      VisibleRowsMember(raw, b, r);
      RawRowsMember(t, keys, r);
      VersionListMember(t, r.key, r.hit);
    }
    forall k | HasPrefix(k, prefix) && GetAt(t, k, b).Some? ensures Row(k, GetAt(t, k, b).value) in rows {
      var r := Row(k, GetAt(t, k, b).value);
      assert Key(k, r.hit.sequence).user in UsersUnder(t, prefix);
      VersionListMember(t, k, r.hit);
      RawRowsMember(t, keys, r);
      VisibleRowsMember(raw, b, r);
    }
  }

  // ---- Rows of all sources ----

  /** Tables oldest first, as the merge visits them, then the memtable. */
  function TableRows(tables: seq<Sst>, prefix: Bytes, b: Bound): seq<Row> {
    if tables == [] then [] else TableRows(tables[1..], prefix, b) + ScanPrefixAt(tables[0].data, prefix, b)
  }

  function AllRows(st: Store, prefix: Bytes, b: Bound): seq<Row> {
    TableRows(st.tables, prefix, b) + VisibleRows(RawScanPrefix(st.mem, prefix), b)
  }

  lemma {:induction false} TableRowsExact(tables: seq<Sst>, all: Table, prefix: Bytes, b: Bound)
    requires forall i :: 0 <= i < |tables| ==> Part(tables[i].data, all)
    ensures var m, rows := Merge(DataOf(tables)), TableRows(tables, prefix, b);
            Part(m, all) && RowsFrom(rows, m, prefix, b) && RowsCover(rows, m, prefix, b)
  {
    if tables != [] {
      TableRowsExact(tables[1..], all, prefix, b);
      ScanPrefixAtExact(tables[0].data, prefix, b);
      assert DataOf(tables)[1..] == DataOf(tables[1..]);
      JoinRows(Merge(DataOf(tables[1..])), tables[0].data, all, TableRows(tables[1..], prefix, b),
               ScanPrefixAt(tables[0].data, prefix, b), prefix, b);
    }
  }

  lemma JoinRows(low: Table, top: Table, all: Table, lows: seq<Row>, tops: seq<Row>, prefix: Bytes, b: Bound)
    requires Part(low, all) && Part(top, all)
    requires RowsFrom(lows, low, prefix, b) && RowsCover(lows, low, prefix, b)
    requires RowsFrom(tops, top, prefix, b) && RowsCover(tops, top, prefix, b)
    ensures Part(low + top, all)
    ensures RowsFrom(lows + tops, low + top, prefix, b) && RowsCover(lows + tops, low + top, prefix, b)
  {
    JoinFrom(low, top, all, lows, tops, prefix, b);
    forall k | HasPrefix(k, prefix) && GetAt(low + top, k, b).Some?
      ensures Row(k, GetAt(low + top, k, b).value) in lows + tops
    {
      JoinedHit(low, top, k, b);
    }
  }

  lemma JoinFrom(low: Table, top: Table, all: Table, lows: seq<Row>, tops: seq<Row>, prefix: Bytes, b: Bound)
    requires Part(low, all) && Part(top, all) && RowsFrom(lows, low, prefix, b) && RowsFrom(tops, top, prefix, b)
    ensures Part(low + top, all) && RowsFrom(lows + tops, low + top, prefix, b)
  {
  }

  /** The newest version of two tables together is the newest of the one that holds it. */
  lemma JoinedHit(low: Table, top: Table, k: Bytes, b: Bound)
    requires GetAt(low + top, k, b).Some?
    ensures GetAt(low + top, k, b) == GetAt(top, k, b) || GetAt(low + top, k, b) == GetAt(low, k, b)
  {
  }

  lemma AllRowsExact(st: Store, prefix: Bytes, b: Bound)
    requires LayersOk(st)
    ensures RowsFrom(AllRows(st, prefix, b), HeldTable(st), prefix, b)
    ensures RowsCover(AllRows(st, prefix, b), HeldTable(st), prefix, b)
  {
    TableRowsExact(st.tables, LogTable(st.wal), prefix, b);
    RawScanExact(st.mem, prefix, b);
    JoinRows(Merge(DataOf(st.tables)), st.mem, LogTable(st.wal), TableRows(st.tables, prefix, b),
             VisibleRows(RawScanPrefix(st.mem, prefix), b), prefix, b);
  }

  lemma BestIsNewest(rows: seq<Row>, t: Table, prefix: Bytes, b: Bound, k: Bytes, h: Hit)
    requires RowsFrom(rows, t, prefix, b) && RowsCover(rows, t, prefix, b) && IsBest(rows, k, h)
    ensures GetAt(t, k, b) == Some(h) && HasPrefix(k, prefix)
  {
  }

  /** Every window entry is what a point lookup of its key finds. */
  lemma WindowAgreesWithProbe(st: Store, w: Window, max: nat, prefix: Bytes, b: Bound, k: Bytes)
    requires LayersOk(st) && IsWindow(w, AllRows(st, prefix, b), max) && k in w
    ensures Probe(st, k, b) == Some(w[k]) && HasPrefix(k, prefix)
  {
    AllRowsExact(st, prefix, b);
    ProbeIsNewestHeld(st, k, b);
    BestIsNewest(AllRows(st, prefix, b), HeldTable(st), prefix, b, k, w[k]);
  }

  function OfferAll(w: Window, rows: seq<Row>, max: nat): Window
    decreases |rows|
  {
    if rows == [] then w else OfferAll(Offer(w, rows[0], max), rows[1..], max)
  }

  lemma {:induction false} OfferAllAppend(w: Window, a: seq<Row>, b: seq<Row>, max: nat)
    ensures OfferAll(w, a + b, max) == OfferAll(OfferAll(w, a, max), b, max)
    decreases |a|
  {
    if a == [] {
      assert a + b == b;
    } else {
      assert (a + b)[1..] == a[1..] + b;
      OfferAllAppend(Offer(w, a[0], max), a[1..], b, max);
    }
  }

  lemma {:induction false} OfferAllIsWindow(w: Window, seen: seq<Row>, rows: seq<Row>, max: nat)
    requires IsWindow(w, seen, max)
    ensures IsWindow(OfferAll(w, rows, max), seen + rows, max)
    decreases |rows|
  {
    if rows == [] {
      assert seen + rows == seen;
    } else {
      OfferKeepsWindow(w, seen, rows[0], max);
      OfferAllIsWindow(Offer(w, rows[0], max), seen + [rows[0]], rows[1..], max);
      assert seen + [rows[0]] + rows[1..] == seen + rows;
    }
  }

  /** The merged window holds exactly the first keys of all those offered. */
  lemma WindowIsFirstKeys(w: Window, rows: seq<Row>, max: nat)
    requires IsWindow(w, rows, max)
    ensures Sorted(w.Keys) <= Sorted(KeysOf(rows))
    ensures w.Keys != KeysOf(rows) ==> |w| == max
  {
    var p, q := Sorted(w.Keys), Sorted(KeysOf(rows) - w.Keys);
    JoinSorted(p, q);
    SortedUnique(p + q, Sorted(KeysOf(rows)));
  }

  lemma JoinSorted(p: seq<Bytes>, q: seq<Bytes>)
    requires StrictlySorted(p) && StrictlySorted(q) && forall a, x :: a in p && x in q ==> Less(a, x)
    ensures StrictlySorted(p + q)
  {
    forall i, j | 0 <= i < j < |p + q| ensures Less((p + q)[i], (p + q)[j]) {
      if i < |p| <= j {
        assert p[i] in p && q[j - |p|] in q;
      }
    }
  }

  // ---- Emitting rows under the caps ----

  datatype Caps = Caps(maxKeyLen: nat, maxResults: nat, maxBytes: nat)

  function EffectiveLimit(caps: Caps, limit: Option<nat>): nat {
    if limit.Some? && limit.value < caps.maxResults then limit.value else caps.maxResults
  }

  /** Puts of the window in key order. */
  function Puts(keys: seq<Bytes>, w: Window): seq<(Bytes, Bytes)>
    requires forall i :: 0 <= i < |keys| ==> keys[i] in w
  {
    if keys == [] then [] else
      (if w[keys[0]].val.Some? then [(keys[0], w[keys[0]].val.value)] else []) + Puts(keys[1..], w)
  }

  /** How many pairs are taken after `count` pairs of `bytes` bytes: stop when the
      count reaches `limit` or the next pair would exceed `room` bytes; the very
      first pair is always taken. */
  function TakeLen(pairs: seq<(Bytes, Bytes)>, count: nat, bytes: nat, limit: nat, room: nat): (n: nat)
    ensures n <= |pairs|
    decreases |pairs|
  {
    if pairs == [] then 0 else
      var size := |pairs[0].0| + |pairs[0].1|;
      if count > 0 && bytes + size > room then 0
      else if count + 1 >= limit then 1
      else 1 + TakeLen(pairs[1..], count + 1, bytes + size, limit, room)
  }

  function Take(pairs: seq<(Bytes, Bytes)>, limit: nat, room: nat): seq<(Bytes, Bytes)> {
    pairs[..TakeLen(pairs, 0, 0, limit, room)]
  }

  function Bytesum(pairs: seq<(Bytes, Bytes)>): nat {
    if pairs == [] then 0 else |pairs[0].0| + |pairs[0].1| + Bytesum(pairs[1..])
  }

  /** Within the byte cap, exactly the first pairs up to the limit are taken. */
  lemma {:induction false} TakeUnderCap(pairs: seq<(Bytes, Bytes)>, count: nat, bytes: nat, limit: nat, room: nat)
    requires count < limit && bytes + Bytesum(pairs) <= room
    ensures TakeLen(pairs, count, bytes, limit, room) ==
            if |pairs| <= limit - count then |pairs| else limit - count
    decreases |pairs|
  {
    if pairs != [] && count + 1 < limit {
      TakeUnderCap(pairs[1..], count + 1, bytes + |pairs[0].0| + |pairs[0].1|, limit, room);
    }
  }

  /** Never more than the limit, except that the first pair is never held back. */
  lemma {:induction false} TakeWithinLimit(pairs: seq<(Bytes, Bytes)>, count: nat, bytes: nat, limit: nat, room: nat)
    ensures TakeLen(pairs, count, bytes, limit, room) <= if count < limit then limit - count else 1
    ensures count == 0 && pairs != [] ==> TakeLen(pairs, count, bytes, limit, room) > 0
    decreases |pairs|
  {
    if pairs != [] && count + 1 < limit {
      TakeWithinLimit(pairs[1..], count + 1, bytes + |pairs[0].0| + |pairs[0].1|, limit, room);
    }
  }

  /** The byte cap holds from the second pair on, and the output stops early only
      where the next pair would exceed it. */
  lemma {:induction false} TakeWithinBytes(pairs: seq<(Bytes, Bytes)>, count: nat, bytes: nat, limit: nat, room: nat)
    ensures var n := TakeLen(pairs, count, bytes, limit, room);
            && (n > 0 && count + n > 1 ==> bytes + Bytesum(pairs[..n]) <= room)
            && (n < |pairs| && count + n < limit ==> count + n > 0 && bytes + Bytesum(pairs[..n + 1]) > room)
    decreases |pairs|
  {
    if pairs != [] {
      var n, size := TakeLen(pairs, count, bytes, limit, room), |pairs[0].0| + |pairs[0].1|;
      TakeWithinBytes(pairs[1..], count + 1, bytes + size, limit, room);
      assert Bytesum(pairs[..1]) == size;
      if n > 0 {
        assert pairs[..n][1..] == pairs[1..][..n - 1];
        if n < |pairs| {
          assert pairs[..n + 1][1..] == pairs[1..][..n];
        }
      }
    }
  }

  function MergedWindow(st: Store, prefix: Bytes, b: Bound, max: nat): Window {
    OfferAll(map[], AllRows(st, prefix, b), max)
  }

  function WindowPuts(w: Window): seq<(Bytes, Bytes)> {
    var keys := Sorted(w.Keys);
    assert forall i :: 0 <= i < |keys| ==> keys[i] in keys;
    Puts(keys, w)
  }

  function ScanResult(st: Store, caps: Caps, prefix: Bytes, b: Bound, limit: Option<nat>): seq<(Bytes, Bytes)> {
    Take(WindowPuts(MergedWindow(st, prefix, b, caps.maxResults)), EffectiveLimit(caps, limit), caps.maxBytes)
  }

  method MergeInto(w: Window, rows: seq<Row>, max: nat) returns (out: Window)
    ensures out == OfferAll(w, rows, max)
  {
    out := w;
    for i := 0 to |rows|
      invariant OfferAll(out, rows[i..], max) == OfferAll(w, rows, max)
    {
      assert rows[i..][1..] == rows[i + 1..];
      out := Offer(out, rows[i], max);
    }
  }

  /** Tables oldest first, newest visible version of each key. */
  method MergeTables(tables: seq<Sst>, prefix: Bytes, b: Bound, max: nat) returns (w: Window)
    ensures w == OfferAll(map[], TableRows(tables, prefix, b), max)
  {
    w := map[];
    for i := |tables| downto 0
      invariant w == OfferAll(map[], TableRows(tables[i..], prefix, b), max)
    {
      assert tables[i..][0] == tables[i] && tables[i..][1..] == tables[i + 1..];
      var rows := ScanPrefixAt(tables[i].data, prefix, b);
      OfferAllAppend(map[], TableRows(tables[i + 1..], prefix, b), rows, max);
      w := MergeInto(w, rows, max);
    }
    assert tables[0..] == tables;
  }

  /** Every memtable version under the prefix, skipping those above the bound. */
  method MergeMemtable(before: Window, mem: Table, prefix: Bytes, b: Bound, max: nat) returns (w: Window)
    ensures w == OfferAll(before, VisibleRows(RawScanPrefix(mem, prefix), b), max)
  {
    w := before;
    var raw := RawScanPrefix(mem, prefix);
    for i := 0 to |raw|
      invariant OfferAll(w, VisibleRows(raw[i..], b), max) == OfferAll(before, VisibleRows(raw, b), max)
    {
      VisibleRowsFrom(raw, i, b);
      if !Within(raw[i].hit.sequence, b) {
        continue;
      }
      w := Offer(w, raw[i], max);
    }
  }

  lemma VisibleRowsFrom(rows: seq<Row>, i: nat, b: Bound)
    requires i < |rows|
    ensures VisibleRows(rows[i..], b) ==
            (if Within(rows[i].hit.sequence, b) then [rows[i]] else []) + VisibleRows(rows[i + 1..], b)
    ensures Within(rows[i].hit.sequence, b) ==> VisibleRows(rows[i..], b)[1..] == VisibleRows(rows[i + 1..], b)
    ensures !Within(rows[i].hit.sequence, b) ==> VisibleRows(rows[i..], b) == VisibleRows(rows[i + 1..], b)
  {
  }

  method ScanPrefix(st: Store, caps: Caps, prefix: Bytes, b: Bound, limit: Option<nat>)
    returns (r: Option<seq<(Bytes, Bytes)>>)
    ensures r.None? <==> |prefix| > caps.maxKeyLen
    ensures r.Some? ==> r.value == ScanResult(st, caps, prefix, b, limit)
  {
    if |prefix| > caps.maxKeyLen {
      return None;
    }
    var fromTables := MergeTables(st.tables, prefix, b, caps.maxResults);
    var w := MergeMemtable(fromTables, st.mem, prefix, b, caps.maxResults);
    OfferAllAppend(map[], TableRows(st.tables, prefix, b), VisibleRows(RawScanPrefix(st.mem, prefix), b), caps.maxResults);
    var out := EmitWindow(w, EffectiveLimit(caps, limit), caps.maxBytes);
    r := Some(out);
  }

  method EmitWindow(w: Window, limit: nat, room: nat) returns (out: seq<(Bytes, Bytes)>)
    ensures out == Take(WindowPuts(w), limit, room)
  {
    var keys := Sorted(w.Keys);
    assert forall i :: 0 <= i < |keys| ==> keys[i] in keys;
    out := EmitKeys(keys, w, limit, room);
  }

  /** What the output loop still emits from `keys` after `out` with `total` bytes. */
  function Emit(keys: seq<Bytes>, w: Window, out: seq<(Bytes, Bytes)>, total: nat, limit: nat, room: nat): seq<(Bytes, Bytes)>
    requires forall i :: 0 <= i < |keys| ==> keys[i] in w
    decreases |keys|
  {
    if keys == [] then out else
      var v := w[keys[0]].val;
      if v.None? then Emit(keys[1..], w, out, total, limit, room) else
        var size := |keys[0]| + |v.value|;
        if out != [] && total + size > room then out
        else if |out| + 1 >= limit then out + [(keys[0], v.value)]
        else Emit(keys[1..], w, out + [(keys[0], v.value)], total + size, limit, room)
  }

  lemma {:induction false} EmitTakes(keys: seq<Bytes>, w: Window, out: seq<(Bytes, Bytes)>, total: nat, limit: nat, room: nat)
    requires forall i :: 0 <= i < |keys| ==> keys[i] in w
    ensures var pairs := Puts(keys, w);
            Emit(keys, w, out, total, limit, room) == out + pairs[..TakeLen(pairs, |out|, total, limit, room)]
    decreases |keys|
  {
    if keys != [] {
      var v, rest := w[keys[0]].val, Puts(keys[1..], w);
      if v.None? {
        EmitTakes(keys[1..], w, out, total, limit, room);
        assert Puts(keys, w) == rest;
      } else {
        var pair := (keys[0], v.value);
        EmitTakes(keys[1..], w, out + [pair], total + |keys[0]| + |v.value|, limit, room);
        EmitPair(pair, rest, out, total, limit, room);
      }
    }
  }

  lemma EmitPair(pair: (Bytes, Bytes), rest: seq<(Bytes, Bytes)>, out: seq<(Bytes, Bytes)>, total: nat, limit: nat, room: nat)
    ensures var pairs, size := [pair] + rest, |pair.0| + |pair.1|;
            out + pairs[..TakeLen(pairs, |out|, total, limit, room)] ==
            if out != [] && total + size > room then out
            else if |out| + 1 >= limit then out + [pair]
            else out + [pair] + rest[..TakeLen(rest, |out| + 1, total + size, limit, room)]
  {
  }

  method EmitKeys(keys: seq<Bytes>, w: Window, limit: nat, room: nat) returns (out: seq<(Bytes, Bytes)>)
    requires forall i :: 0 <= i < |keys| ==> keys[i] in w
    ensures out == Take(Puts(keys, w), limit, room)
  {
    EmitTakes(keys, w, [], 0, limit, room);
    out := [];
    var total: nat := 0;
    assert keys[0..] == keys;
    for i := 0 to |keys|
      invariant Emit(keys[i..], w, out, total, limit, room) == Emit(keys, w, [], 0, limit, room)
    {
      assert keys[i..][0] == keys[i] && keys[i..][1..] == keys[i + 1..];
      var v := w[keys[i]].val;
      if v.Some? {
        var size := |keys[i]| + |v.value|;
        if out != [] && total + size > room {
          return;
        }
        total := total + size;
        out := out + [(keys[i], v.value)];
        if |out| >= limit {
          return;
        }
      }
    }
  }

  // ---- What a scan returns ----

  function FirstOf(pairs: seq<(Bytes, Bytes)>): seq<Bytes> {
    seq(|pairs|, i requires 0 <= i < |pairs| => pairs[i].0)
  }

  /** Key-ordered pairs that agree with a map and cover it are the map's pairs. */
  lemma PairsUnique(pairs: seq<(Bytes, Bytes)>, m: map<Bytes, Bytes>)
    requires StrictlySorted(FirstOf(pairs))
    requires forall i :: 0 <= i < |pairs| ==> pairs[i].0 in m && m[pairs[i].0] == pairs[i].1
    requires forall k :: k in m ==> k in FirstOf(pairs)
    ensures pairs == PairsOf(m)
  {
    var keys := FirstOf(pairs);
    assert forall k :: k in keys ==> k in m.Keys;
    SortedUnique(keys, Sorted(m.Keys));
    assert forall i :: 0 <= i < |pairs| ==> pairs[i] == PairsOf(m)[i] by {
      forall i | 0 <= i < |pairs| ensures pairs[i] == PairsOf(m)[i] {
        assert keys[i] == pairs[i].0;
      }
    }
  }

  function PutMap(w: Window): map<Bytes, Bytes> {
    map k | k in w && w[k].val.Some? :: w[k].val.value
  }

  lemma {:induction false} PutsExact(keys: seq<Bytes>, w: Window)
    requires StrictlySorted(keys) && forall i :: 0 <= i < |keys| ==> keys[i] in w
    ensures var pairs := Puts(keys, w);
            && StrictlySorted(FirstOf(pairs))
            && (forall i :: 0 <= i < |pairs| ==> pairs[i].0 in keys && pairs[i].0 in PutMap(w) && PutMap(w)[pairs[i].0] == pairs[i].1)
            && (forall k :: k in keys && k in PutMap(w) ==> k in FirstOf(pairs))
  {
    if keys != [] {
      PutsExact(keys[1..], w);
      var tail := Puts(keys[1..], w);
      assert forall k :: k in keys ==> k == keys[0] || k in keys[1..];
      assert forall i :: 0 <= i < |tail| ==> Less(keys[0], tail[i].0) by {
        forall i | 0 <= i < |tail| ensures Less(keys[0], tail[i].0) {
          var j :| 0 <= j < |keys[1..]| && keys[1..][j] == tail[i].0;
          assert Less(keys[0], keys[j + 1]);
        }
      }
      ConsFirst(keys[0], w, tail);
    }
  }

  lemma ConsFirst(k: Bytes, w: Window, tail: seq<(Bytes, Bytes)>)
    requires k in w && StrictlySorted(FirstOf(tail)) && forall i :: 0 <= i < |tail| ==> Less(k, tail[i].0)
    ensures var pairs := (if w[k].val.Some? then [(k, w[k].val.value)] else []) + tail;
            && StrictlySorted(FirstOf(pairs))
            && (forall x :: x in FirstOf(tail) ==> x in FirstOf(pairs))
            && (w[k].val.Some? ==> k in FirstOf(pairs))
  {
    var pairs := (if w[k].val.Some? then [(k, w[k].val.value)] else []) + tail;
    if w[k].val.Some? {
      assert FirstOf(pairs) == [k] + FirstOf(tail);
      assert FirstOf(pairs)[0] == k;
    } else {
      assert pairs == tail;
    }
  }

  lemma WindowPutsExact(w: Window)
    ensures WindowPuts(w) == PairsOf(PutMap(w))
  {
    var keys := Sorted(w.Keys);
    assert forall i :: 0 <= i < |keys| ==> keys[i] in keys;
    PutsExact(keys, w);
    PairsUnique(Puts(keys, w), PutMap(w));
  }

  /** Keys under the prefix with the value a point read at the bound returns. */
  function VisibleMap(st: Store, prefix: Bytes, b: Bound): map<Bytes, Bytes> {
    map k | k in UsersUnder(HeldTable(st), prefix) && Read(st, k, b).Some? :: Read(st, k, b).value
  }

  lemma MergedIsWindow(st: Store, prefix: Bytes, b: Bound, max: nat)
    ensures IsWindow(MergedWindow(st, prefix, b, max), AllRows(st, prefix, b), max)
  {
    OfferAllIsWindow(map[], [], AllRows(st, prefix, b), max);
    assert [] + AllRows(st, prefix, b) == AllRows(st, prefix, b);
  }

  /** Whatever the caps cut off, the pairs a scan returns are in key order and each is
      what a point read returns. */
  lemma ScanAgreesWithGet(st: Store, caps: Caps, prefix: Bytes, b: Bound, limit: Option<nat>, i: nat)
    requires LayersOk(st) && i < |ScanResult(st, caps, prefix, b, limit)|
    ensures var r := ScanResult(st, caps, prefix, b, limit);
            && Read(st, r[i].0, b) == Some(r[i].1) && HasPrefix(r[i].0, prefix)
            && (i > 0 ==> Less(r[i - 1].0, r[i].0))
  {
    var w := MergedWindow(st, prefix, b, caps.maxResults);
    MergedIsWindow(st, prefix, b, caps.maxResults);
    var r := ScanResult(st, caps, prefix, b, limit);
    TakenFromWindow(w, r, i);
    WindowAgreesWithProbe(st, w, caps.maxResults, prefix, b, r[i].0);
  }

  lemma TakenFromWindow(w: Window, r: seq<(Bytes, Bytes)>, i: nat)
    requires r <= WindowPuts(w) && i < |r|
    ensures r[i].0 in w && w[r[i].0].val == Some(r[i].1) && (i > 0 ==> Less(r[i - 1].0, r[i].0))
  {
    WindowPutsExact(w);
  }

  lemma AllKeysKept(w: Window, rows: seq<Row>, max: nat)
    requires IsWindow(w, rows, max) && |KeysOf(rows)| <= max
    ensures w.Keys == KeysOf(rows)
  {
    if w.Keys != KeysOf(rows) {
      SubsetSize(w.Keys, KeysOf(rows));
    }
  }

  lemma {:induction false} SubsetSize(a: set<Bytes>, b: set<Bytes>)
    requires a <= b
    ensures |a| <= |b| && (a != b ==> |a| < |b|)
  {
    assert b == a + (b - a);
  }

  /** Keys under the prefix with a version, tombstones included, that the bound admits. */
  function Offered(st: Store, prefix: Bytes, b: Bound): set<Bytes> {
    set k | k in UsersUnder(HeldTable(st), prefix) && Probe(st, k, b).Some?
  }

  lemma RowKeysAreOffered(st: Store, prefix: Bytes, b: Bound)
    requires LayersOk(st)
    ensures KeysOf(AllRows(st, prefix, b)) == Offered(st, prefix, b)
  {
    AllRowsExact(st, prefix, b);
    forall r | r in AllRows(st, prefix, b) ensures r.key in Offered(st, prefix, b) {
      assert Key(r.key, r.hit.sequence) in HeldTable(st);
      ProbeIsNewestHeld(st, r.key, b);
    }
    forall k | k in Offered(st, prefix, b) ensures k in KeysOf(AllRows(st, prefix, b)) {
      ProbeIsNewestHeld(st, k, b);
      assert Row(k, GetAt(HeldTable(st), k, b).value) in AllRows(st, prefix, b);
    }
  }

  lemma FullWindowIsVisible(st: Store, w: Window, max: nat, prefix: Bytes, b: Bound)
    requires LayersOk(st) && IsWindow(w, AllRows(st, prefix, b), max) && w.Keys == KeysOf(AllRows(st, prefix, b))
    ensures PutMap(w) == VisibleMap(st, prefix, b)
  {
    forall k ensures (k in w ==> k in UsersUnder(HeldTable(st), prefix) && Read(st, k, b) == w[k].val)
                  && (k in UsersUnder(HeldTable(st), prefix) && Read(st, k, b).Some? ==> k in w)
    {
      if k in w {
        KeptIsVisible(st, w, max, prefix, b, k);
      } else if HasPrefix(k, prefix) && Read(st, k, b).Some? {
        VisibleIsRow(st, prefix, b, k);
      }
    }
    SamePairs(st, w, prefix, b);
  }

  lemma SamePairs(st: Store, w: Window, prefix: Bytes, b: Bound)
    requires forall k :: k in w ==> k in UsersUnder(HeldTable(st), prefix) && Read(st, k, b) == w[k].val
    requires forall k :: k in UsersUnder(HeldTable(st), prefix) && Read(st, k, b).Some? ==> k in w
    ensures PutMap(w) == VisibleMap(st, prefix, b)
  {
  }

  lemma KeptIsVisible(st: Store, w: Window, max: nat, prefix: Bytes, b: Bound, k: Bytes)
    requires LayersOk(st) && IsWindow(w, AllRows(st, prefix, b), max) && k in w
    ensures k in UsersUnder(HeldTable(st), prefix) && Read(st, k, b) == w[k].val
  {
    WindowAgreesWithProbe(st, w, max, prefix, b, k);
    ProbeIsNewestHeld(st, k, b);
    assert Key(k, w[k].sequence) in HeldTable(st);
  }

  lemma VisibleIsRow(st: Store, prefix: Bytes, b: Bound, k: Bytes)
    requires LayersOk(st) && HasPrefix(k, prefix) && Read(st, k, b).Some?
    ensures k in KeysOf(AllRows(st, prefix, b))
  {
    AllRowsExact(st, prefix, b);
    ProbeIsNewestHeld(st, k, b);
    assert Row(k, GetAt(HeldTable(st), k, b).value) in AllRows(st, prefix, b);
  }

  /** While the keys with an admitted version fit the cap, a scan returns precisely the
      first visible pairs. */
  lemma ScanUnderCaps(st: Store, caps: Caps, prefix: Bytes, b: Bound, limit: Option<nat>)
    requires LayersOk(st) && EffectiveLimit(caps, limit) > 0
    requires |Offered(st, prefix, b)| <= caps.maxResults
    requires Bytesum(PairsOf(VisibleMap(st, prefix, b))) <= caps.maxBytes
    ensures var all, n := PairsOf(VisibleMap(st, prefix, b)), EffectiveLimit(caps, limit);
            ScanResult(st, caps, prefix, b, limit) == all[..if |all| <= n then |all| else n]
  {
    AllPutsVisible(st, caps.maxResults, prefix, b);
    TakeUnderCap(PairsOf(VisibleMap(st, prefix, b)), 0, 0, EffectiveLimit(caps, limit), caps.maxBytes);
  }

  /** A window nothing was pruned from holds precisely the visible pairs. */
  lemma AllPutsVisible(st: Store, max: nat, prefix: Bytes, b: Bound)
    requires LayersOk(st) && |Offered(st, prefix, b)| <= max
    ensures WindowPuts(MergedWindow(st, prefix, b, max)) == PairsOf(VisibleMap(st, prefix, b))
  {
    var w := MergedWindow(st, prefix, b, max);
    MergedIsWindow(st, prefix, b, max);
    RowKeysAreOffered(st, prefix, b);
    AllKeysKept(w, AllRows(st, prefix, b), max);
    FullWindowIsVisible(st, w, max, prefix, b);
    WindowPutsExact(w);
  }

  /** The first `max` of the keys, in order. */
  function FirstKeys(keys: set<Bytes>, max: nat): seq<Bytes> {
    if |Sorted(keys)| <= max then Sorted(keys) else Sorted(keys)[..max]
  }

  /** What point reads return for these keys, those without a value skipped. */
  function ReadEach(st: Store, keys: seq<Bytes>, b: Bound): seq<(Bytes, Bytes)> {
    if keys == [] then [] else
      (if Read(st, keys[0], b).Some? then [(keys[0], Read(st, keys[0], b).value)] else []) + ReadEach(st, keys[1..], b)
  }

  lemma {:induction false} PutsAreReads(st: Store, keys: seq<Bytes>, w: Window, b: Bound)
    requires forall i :: 0 <= i < |keys| ==> keys[i] in w && Read(st, keys[i], b) == w[keys[i]].val
    ensures Puts(keys, w) == ReadEach(st, keys, b)
    decreases |keys|
  {
    if keys != [] {
      PutsAreReads(st, keys[1..], w, b);
    }
  }

  lemma WindowKeys(w: Window, rows: seq<Row>, max: nat)
    requires IsWindow(w, rows, max)
    ensures Sorted(w.Keys) == FirstKeys(KeysOf(rows), max)
  {
    WindowIsFirstKeys(w, rows, max);
    SortedSize(w.Keys);
    SortedSize(KeysOf(rows));
    SubsetSize(w.Keys, KeysOf(rows));
  }

  /** For any caps, a scan reads the first `maxResults` of the keys that have an admitted
      version, skips the tombstones among them, and cuts the rest off at the limit and
      the byte cap. */
  lemma ScanForAnyCaps(st: Store, caps: Caps, prefix: Bytes, b: Bound, limit: Option<nat>)
    requires LayersOk(st)
    ensures ScanResult(st, caps, prefix, b, limit) ==
            Take(ReadEach(st, FirstKeys(Offered(st, prefix, b), caps.maxResults), b), EffectiveLimit(caps, limit), caps.maxBytes)
  {
    var w := MergedWindow(st, prefix, b, caps.maxResults);
    MergedIsWindow(st, prefix, b, caps.maxResults);
    RowKeysAreOffered(st, prefix, b);
    WindowKeys(w, AllRows(st, prefix, b), caps.maxResults);
    var keys := Sorted(w.Keys);
    forall i | 0 <= i < |keys| ensures keys[i] in w && Read(st, keys[i], b) == w[keys[i]].val {
      assert keys[i] in keys;
      KeptIsVisible(st, w, caps.maxResults, prefix, b, keys[i]);
    }
    PutsAreReads(st, keys, w, b);
  }

  /** A scan stays within its limit exactly when the limit is not zero or there is
      nothing to return: the first pair is pushed before the limit is looked at. */
  lemma ScanWithinLimit(st: Store, caps: Caps, prefix: Bytes, b: Bound, limit: Option<nat>)
    requires LayersOk(st)
    ensures |ScanResult(st, caps, prefix, b, limit)| <= EffectiveLimit(caps, limit)
       <==> EffectiveLimit(caps, limit) > 0 || ReadEach(st, FirstKeys(Offered(st, prefix, b), caps.maxResults), b) == []
  {
    ScanForAnyCaps(st, caps, prefix, b, limit);
    TakeWithinLimit(ReadEach(st, FirstKeys(Offered(st, prefix, b), caps.maxResults), b), 0, 0, EffectiveLimit(caps, limit), caps.maxBytes);
  }

  /** One put and a limit of zero: the pair is returned. */
  lemma ZeroLimitYieldsOne(limits: Limits, caps: Caps, k: Bytes, v: Bytes)
    requires caps.maxResults > 0
    ensures ScanResult(Append(Fresh(limits), k, Some(v)), caps, [], Latest, Some(0)) == [(k, v)]
  {
    var st := Append(Fresh(limits), k, Some(v));
    OneVisible(limits, k, v);
    OneOffered(st, k);
    AllPutsVisible(st, caps.maxResults, [], Latest);
    OnePair(k, v);
  }

  lemma OneVisible(limits: Limits, k: Bytes, v: Bytes)
    ensures var st := Append(Fresh(limits), k, Some(v));
            StoreOk(st) && VisibleMap(st, [], Latest) == map[k := v]
  {
    var st := Append(Fresh(limits), k, Some(v));
    AppendKeeps(Fresh(limits), k, Some(v));
    LatestScanSeesLog(st, []);
    assert st.wal == [Record(1, k, Some(v))];
  }

  lemma OneOffered(st: Store, k: Bytes)
    requires st.tables == [] && (forall q :: q in st.mem ==> q.user == k)
    ensures |Offered(st, [], Latest)| <= 1
  {
    assert HeldTable(st) == st.mem;
    assert Offered(st, [], Latest) <= {k};
    SubsetSize(Offered(st, [], Latest), {k});
  }

  lemma OnePair(k: Bytes, v: Bytes)
    ensures PairsOf(map[k := v]) == [(k, v)]
  {
    var m := map[k := v];
    assert m.Keys == {k};
    SortedUnique([k], Sorted(m.Keys));
    assert PairsOf(m)[0] == (k, v);
  }

  function UnderPrefix(m: map<Bytes, Bytes>, prefix: Bytes): map<Bytes, Bytes> {
    map k | k in m && HasPrefix(k, prefix) :: m[k]
  }

  /** A latest-bound scan sees what the log folds to: flushes, compaction and
      watermark collection are invisible to it. */
  lemma LatestScanSeesLog(st: Store, prefix: Bytes)
    requires StoreOk(st)
    ensures VisibleMap(st, prefix, Latest) == UnderPrefix(Contents(st.wal), prefix)
  {
    forall k ensures Read(st, k, Latest) == Lookup(Contents(st.wal), k) {
      LatestReadRefinesLog(st, k);
    }
    forall k | HasPrefix(k, prefix) && Read(st, k, Latest).Some? ensures k in UsersUnder(HeldTable(st), prefix) {
      ProbeIsNewestHeld(st, k, Latest);
    }
  }
}
