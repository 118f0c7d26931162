/** Multi-version tables: the contents of a memtable or an SSTable, lookup at a
    read bound, stacks of tables probed newest first, and watermark collection. */
module Versions {
  import opened ByteStrings

  /** A user key with the commit sequence of one of its versions. */
  datatype Key = Key(user: Bytes, ts: nat)

  /** Versions held by one source; `None` is a tombstone. */
  type Table = map<Key, Option<Bytes>>

  /** Inclusive upper bound on the sequences a read may see. */
  datatype Bound = Latest | At(ts: nat)

  datatype Hit = Hit(sequence: nat, val: Option<Bytes>)

  predicate Within(s: nat, b: Bound) {
    b.Latest? || s <= b.ts
  }

  /** What a reader is handed: a tombstone and a missing version both read as nothing. */
  function ValueOf(h: Option<Hit>): Option<Bytes> {
    if h.Some? then h.value.val else None
  }

  // ---- Lookup in one table ----

  lemma {:induction false} MaxExists(s: set<nat>)
    requires s != {}
    ensures exists m :: m in s && forall x :: x in s ==> x <= m
    decreases |s|
  {
    var x :| x in s;
    if s - {x} == {} {
      assert s == {x};
    } else {
      MaxExists(s - {x});
      var m :| m in s - {x} && forall y :: y in s - {x} ==> y <= m;
      var top := if x < m then m else x;
      forall y | y in s ensures y <= top {
        assert y == x || y in s - {x};
      }
    }
  }

  function Max(s: set<nat>): (m: nat)
    requires s != {}
    ensures m in s && forall x :: x in s ==> x <= m
  {
    MaxExists(s);
    var m :| m in s && forall x :: x in s ==> x <= m;
    m
  }

  /** Newest version of `k` in `t` that the bound admits. */
  function GetAt(t: Table, k: Bytes, b: Bound): (r: Option<Hit>)
    ensures r.None? <==> forall s: nat :: Key(k, s) in t ==> !Within(s, b)
    ensures r.Some? ==> Key(k, r.value.sequence) in t && t[Key(k, r.value.sequence)] == r.value.val
    ensures r.Some? ==> Within(r.value.sequence, b)
    ensures r.Some? ==> forall s: nat :: Key(k, s) in t && Within(s, b) ==> s <= r.value.sequence
  {
    var visible := set q | q in t && q.user == k && Within(q.ts, b) :: q.ts;
    assert forall s: nat :: Key(k, s) in t && Within(s, b) ==> s in visible;
    if visible == {} then None else
      var s := Max(visible);
      assert Key(k, s) in t;
      Some(Hit(s, t[Key(k, s)]))
  }

  // ---- Stacks of tables, newest first ----

  ghost predicate Part(a: Table, b: Table) {
    forall q :: q in a ==> q in b && a[q] == b[q]
  }

  /** Every version of `b` that is newer than some version of the same key in `a`
      is also in `a`. */
  ghost predicate Above(a: Table, b: Table) {
    forall k, s: nat, t: nat :: Key(k, s) in a && Key(k, t) in b && s < t ==> Key(k, t) in a
  }

  lemma AboveAfterInsert(top: Table, low: Table, q: Key, v: Option<Bytes>)
    requires Above(top, low) && forall p :: p in low ==> p.ts < q.ts
    ensures Above(top[q := v], low)
  {
  }

  ghost predicate Layered(layers: seq<Table>) {
    forall i, j :: 0 <= i < j < |layers| ==> Above(layers[i], layers[j])
  }

  ghost predicate AllPart(layers: seq<Table>, all: Table) {
    forall i :: 0 <= i < |layers| ==> Part(layers[i], all)
  }

  /** First source with a visible version answers; the rest are not looked at. */
  function FirstHit(layers: seq<Table>, k: Bytes, b: Bound): Option<Hit> {
    if layers == [] then None else
      var h := GetAt(layers[0], k, b);
      if h.Some? then h else FirstHit(layers[1..], k, b)
  }

  function Merge(layers: seq<Table>): Table {
    if layers == [] then map[] else Merge(layers[1..]) + layers[0]
  }

  lemma {:induction false} MergeMember(layers: seq<Table>, q: Key)
    ensures q in Merge(layers) <==> exists i :: 0 <= i < |layers| && q in layers[i]
  {
    if layers != [] {
      MergeMember(layers[1..], q);
      if i :| 0 <= i < |layers[1..]| && q in layers[1..][i] {
        assert q in layers[i + 1];
      }
      if i :| 0 < i < |layers| && q in layers[i] {
        assert q in layers[1..][i - 1];
      }
    }
  }

  lemma {:induction false} MergePart(layers: seq<Table>, all: Table)
    requires AllPart(layers, all)
    ensures Part(Merge(layers), all)
  {
    if layers != [] {
      MergePart(layers[1..], all);
    }
  }

  /** In a layered stack the first hit is the newest version over all sources. */
  lemma {:induction false} FirstHitIsNewest(layers: seq<Table>, all: Table, k: Bytes, b: Bound)
    requires Layered(layers) && AllPart(layers, all)
    ensures FirstHit(layers, k, b) == GetAt(Merge(layers), k, b)
  {
    if layers != [] {
      var rest := layers[1..];
      FirstHitIsNewest(rest, all, k, b);
      MergePart(rest, all);
      TopCovers(layers);
      TwoLayers(layers[0], Merge(rest), all, k, b);
    }
  }

  lemma TopCovers(layers: seq<Table>)
    requires Layered(layers) && layers != []
    ensures Above(layers[0], Merge(layers[1..]))
  {
    forall k, s: nat, t: nat | Key(k, s) in layers[0] && Key(k, t) in Merge(layers[1..]) && s < t
      ensures Key(k, t) in layers[0]
    {
      MergeMember(layers[1..], Key(k, t));
      var i :| 0 <= i < |layers[1..]| && Key(k, t) in layers[1..][i];
      assert Above(layers[0], layers[i + 1]);
    }
  }

  lemma TwoLayers(top: Table, low: Table, all: Table, k: Bytes, b: Bound)
    requires Above(top, low) && Part(top, all) && Part(low, all)
    ensures GetAt(low + top, k, b) == if GetAt(top, k, b).Some? then GetAt(top, k, b) else GetAt(low, k, b)
  {
  }

  // ---- Watermark collection ----

  function Newest(t: Table, k: Bytes): Option<Hit> {
    GetAt(t, k, Latest)
  }

  /** Whether compaction with watermark `w` keeps version `q` of the merged table `t`. */
  predicate Retained(t: Table, q: Key, w: nat)
    requires q in t
  {
    var n := Newest(t, q.user).value;
    && !(n.val.None? && n.sequence < w)
    && (q.ts >= w || (q.ts == n.sequence && t[q].Some?))
  }

  function Collect(t: Table, w: nat): Table {
    map q | q in t && Retained(t, q, w) :: t[q]
  }

  lemma CollectAtZero(t: Table)
    ensures Collect(t, 0) == t
  {
  }

  /** The kept versions of a key are a newest-first prefix of its versions. */
  lemma CollectKeepsPrefix(t: Table, w: nat, k: Bytes, s: nat, newer: nat)
    requires Key(k, s) in Collect(t, w) && Key(k, newer) in t && s < newer
    ensures Key(k, newer) in Collect(t, w)
  {
  }

  /** Collection never changes what a latest read returns. */
  lemma CollectKeepsLatest(t: Table, w: nat, k: Bytes)
    ensures ValueOf(Newest(Collect(t, w), k)) == ValueOf(Newest(t, k))
    ensures Newest(Collect(t, w), k).Some? ==> Newest(Collect(t, w), k) == Newest(t, k)
  {
    var h := Newest(t, k);
    var c := Newest(Collect(t, w), k);
    if c.Some? {
      assert Key(k, c.value.sequence) in t;
      CollectNewest(t, w, k);
    }
  }

  lemma CollectNewest(t: Table, w: nat, k: Bytes)
    requires Newest(Collect(t, w), k).Some?
    ensures Newest(Collect(t, w), k) == Newest(t, k)
  {
    var c := Newest(Collect(t, w), k).value;
    var h := Newest(t, k).value;
    if c.sequence < h.sequence {
      CollectKeepsPrefix(t, w, k, c.sequence, h.sequence);
    }
  }

  /** Collection leaves a lookup its version or leaves it nothing. */
  lemma CollectedHit(t: Table, w: nat, k: Bytes, b: Bound)
    ensures var h := GetAt(t, k, b);
            GetAt(Collect(t, w), k, b) == if h.Some? && Retained(t, Key(k, h.value.sequence), w) then h else None
  {
    var h, c := GetAt(t, k, b), GetAt(Collect(t, w), k, b);
    if c.Some? {
      assert Key(k, c.value.sequence) in t;
      if c.value.sequence < h.value.sequence {
        CollectKeepsPrefix(t, w, k, c.value.sequence, h.value.sequence);
      }
    }
  }

  /** A snapshot read at or above the watermark survives collection exactly when it
      saw nothing, a tombstone, the key's newest version, or a version at or above
      the watermark. */
  lemma CollectSnapshotExact(t: Table, w: nat, k: Bytes, ts: nat)
    requires w <= ts
    ensures var h := GetAt(t, k, At(ts));
            ValueOf(GetAt(Collect(t, w), k, At(ts))) == ValueOf(h)
            <==> (h.None? || h.value.val.None? || h.value.sequence >= w || h == Newest(t, k))
  {
    CollectedHit(t, w, k, At(ts));
  }

  // ---- Reading through a table that has lost versions ----

  /** The newest version of `k` in `all` is in `held`, unless it is a tombstone and
      `held` has no version of `k` at all. */
  ghost predicate Kept(held: Table, all: Table, k: Bytes) {
    var n := Newest(all, k);
    n.Some? ==>
      || Key(k, n.value.sequence) in held
      || (n.value.val.None? && forall s: nat :: Key(k, s) !in held)
  }

  ghost predicate AllKept(held: Table, all: Table) {
    forall k :: Kept(held, all, k)
  }

  lemma KeptReadsLatest(held: Table, all: Table, k: Bytes)
    requires Part(held, all) && Kept(held, all, k)
    ensures ValueOf(Newest(held, k)) == ValueOf(Newest(all, k))
  {
  }

  lemma SeesNewestExactly(held: Table, all: Table, k: Bytes)
    requires Part(held, all)
    ensures var n := Newest(all, k);
            Newest(held, k) == n <==> (n.None? || Key(k, n.value.sequence) in held)
  {
    var n, h := Newest(all, k), Newest(held, k);
    if h.Some? {
      assert Key(k, h.value.sequence) in all;
    }
  }

  /** Adding a version newer than all others to both sides. */
  lemma KeptAfterInsert(held: Table, all: Table, q: Key, v: Option<Bytes>, k: Bytes)
    requires Kept(held, all, k)
    requires forall p :: p in all ==> p.ts < q.ts
    ensures Kept(held[q := v], all[q := v], k)
  {
  }

  lemma AllKeptAfterInsert(held: Table, all: Table, q: Key, v: Option<Bytes>)
    requires AllKept(held, all)
    requires forall p :: p in all ==> p.ts < q.ts
    ensures AllKept(held[q := v], all[q := v])
  {
    var held', all' := held[q := v], all[q := v];
    forall k ensures Kept(held', all', k) {
      KeptAfterInsert(held, all, q, v, k);
    }
  }

  /** A layer that lacks the newest version of a key, held just below it, lacks the key. */
  lemma NothingAbove(top: Table, low: Table, k: Bytes, n: nat)
    requires Above(top, low) && Key(k, n) in low && Key(k, n) !in top
    requires forall s: nat :: Key(k, s) in top ==> s <= n
    ensures forall s: nat :: Key(k, s) !in top
  {
  }

  /** Collecting the lower of two layers keeps the newest version of every key. */
  lemma KeptAfterCollect(top: Table, low: Table, all: Table, w: nat, k: Bytes)
    requires Part(top, all) && Part(low, all) && Above(top, low)
    requires Kept(low + top, all, k)
    ensures Kept(Collect(low, w) + top, all, k)
  {
    var n := Newest(all, k);
    if n.Some? {
      var q := Key(k, n.value.sequence);
      if q in low && q !in top && q !in Collect(low, w) {
        SeesNewestExactly(low, all, k);
        assert !Retained(low, q, w);
        assert forall s: nat :: Key(k, s) !in Collect(low, w);
        assert forall s: nat :: Key(k, s) in top ==> Key(k, s) in all;
        NothingAbove(top, low, k, n.value.sequence);
      }
    }
  }

  lemma AllKeptAfterCollect(top: Table, low: Table, all: Table, w: nat)
    requires Part(top, all) && Part(low, all) && Above(top, low)
    requires AllKept(low + top, all)
    ensures AllKept(Collect(low, w) + top, all)
  {
    var held := Collect(low, w) + top;
    forall k ensures Kept(held, all, k) {
      KeptAfterCollect(top, low, all, w, k);
    }
  }
}
