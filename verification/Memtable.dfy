/** The memtable: one ordered map of versions, user key ascending and newest first,
    with seek-based lookup, one-pass scans and byte accounting. */
module Memtable {
  import opened ByteStrings
  import opened Integers
  import opened Versions

  /** Order of internal keys: user key ascending, then sequence descending. */
  predicate KeyLess(a: Key, b: Key) {
    Less(a.user, b.user) || (a.user == b.user && a.ts > b.ts)
  }

  lemma KeyLessTotal(a: Key, b: Key)
    ensures KeyLess(a, b) || a == b || KeyLess(b, a)
  {
    LessTotal(a.user, b.user);
  }

  lemma KeyLessTransitive(a: Key, b: Key, c: Key)
    requires KeyLess(a, b) && KeyLess(b, c)
    ensures KeyLess(a, c)
  {
    if Less(a.user, b.user) && Less(b.user, c.user) {
      LessTransitive(a.user, b.user, c.user);
    }
  }

  lemma KeyLessAsymmetric(a: Key, b: Key)
    requires KeyLess(a, b)
    ensures !KeyLess(b, a) && a != b
  {
    if Less(a.user, b.user) {
      LessAsymmetric(a.user, b.user);
    } else {
      LessIrreflexive(a.user);
    }
  }

  // ---- The wire form of internal keys ----

  const MAX_TS: nat := 0xffff_ffff_ffff_ffff

  /** User key followed by the inverted sequence, big-endian. */
  function EncodeKey(q: Key): Bytes
    requires q.ts <= MAX_TS
  {
    q.user + BigEndian(MAX_TS - q.ts, 8)
  }

  function UserKeyOf(s: Bytes): Bytes {
    if |s| < 8 then s else s[..|s| - 8]
  }

  function SequenceOf(s: Bytes): int {
    if |s| < 8 then 0 else MAX_TS - FromBigEndian(s[|s| - 8..])
  }

  lemma EncodeKeyRoundTrip(q: Key)
    requires q.ts <= MAX_TS
    ensures UserKeyOf(EncodeKey(q)) == q.user && SequenceOf(EncodeKey(q)) == q.ts
  {
    Widths();
    BigEndianRoundTrip(MAX_TS - q.ts, 8);
    assert EncodeKey(q)[|q.user|..] == BigEndian(MAX_TS - q.ts, 8);
  }

  /** The wire form keeps the order of versions, and of user keys neither of which is a
      prefix of the other... */
  lemma EncodedOrder(a: Key, b: Key)
    requires a.ts <= MAX_TS && b.ts <= MAX_TS && KeyLess(a, b)
    requires a.user == b.user || (!HasPrefix(a.user, b.user) && !HasPrefix(b.user, a.user))
    ensures Less(EncodeKey(a), EncodeKey(b))
  {
    Widths();
    var x, y := BigEndian(MAX_TS - a.ts, 8), BigEndian(MAX_TS - b.ts, 8);
    if a.user == b.user {
      LessIrreflexive(a.user);
      BigEndianOrder(MAX_TS - a.ts, MAX_TS - b.ts, 8);
      LessAppended(a.user, x, y);
    } else {
      DecidedEarly(a.user, b.user, x, y);
    }
  }

  lemma PrefixCons(a: Bytes, b: Bytes)
    requires a != [] && b != [] && a[0] == b[0]
    ensures HasPrefix(b[1..], a[1..]) ==> HasPrefix(b, a)
  {
  }

  lemma {:induction false} DecidedEarly(a: Bytes, b: Bytes, x: Bytes, y: Bytes)
    requires Less(a, b) && !HasPrefix(b, a)
    ensures Less(a + x, b + y)
    decreases |a|
  {
    assert a != [] by { assert b[..0] == []; }
    assert (a + x)[0] == a[0] && (b + y)[0] == b[0];
    if a[0] == b[0] {
      PrefixCons(a, b);
      DecidedEarly(a[1..], b[1..], x, y);
      assert (a + x)[1..] == a[1..] + x && (b + y)[1..] == b[1..] + y;
    }
  }

  /** ...and for any two keys exactly when, should the first user key be a proper prefix
      of the second, its inverted sequence sorts before what follows the prefix. */
  lemma EncodedOrderExact(a: Key, b: Key)
    requires a.ts <= MAX_TS && b.ts <= MAX_TS && KeyLess(a, b)
    ensures Less(EncodeKey(a), EncodeKey(b)) <==>
            (HasPrefix(b.user, a.user) && a.user != b.user ==>
               Less(BigEndian(MAX_TS - a.ts, 8), b.user[|a.user|..] + BigEndian(MAX_TS - b.ts, 8)))
  {
    if HasPrefix(b.user, a.user) && a.user != b.user {
      var x, y := BigEndian(MAX_TS - a.ts, 8), BigEndian(MAX_TS - b.ts, 8);
      var rest := b.user[|a.user|..];
      assert b.user + y == a.user + (rest + y);
      LessAppended(a.user, x, rest + y);
    } else {
      if HasPrefix(a.user, b.user) && a.user != b.user {
        PrefixNotGreater(a.user, b.user);
        LessAsymmetric(b.user, a.user);
      }
      EncodedOrder(a, b);
    }
  }

  /** A key that extends another by a zero byte sorts before its old versions, so the
      memtable orders typed keys instead. */
  lemma WireOrderBreaksOnPrefix(k: Bytes)
    ensures var a, b := Key(k, 0), Key(k + [0], 0); KeyLess(a, b) && Less(EncodeKey(b), EncodeKey(a))
  {
    LongerIsMore(k);
    ZeroFirst(BigEndian(MAX_TS, 8));
    ZeroInserted(k, BigEndian(MAX_TS, 8));
  }

  lemma ZeroInserted(k: Bytes, x: Bytes)
    requires Less([0] + x, x)
    ensures Less(k + [0] + x, k + x)
  {
    LessAppended(k, [0] + x, x);
    assert k + [0] + x == k + ([0] + x);
  }

  lemma LongerIsMore(k: Bytes)
    ensures Less(k, k + [0])
  {
    LessAppended(k, [], [0]);
    assert k + [] == k;
  }

  lemma ZeroFirst(x: Bytes)
    requires x == BigEndian(MAX_TS, 8)
    ensures Less([0] + x, x)
  {
    Widths();
    FirstByte();
  }

  lemma FirstByte()
    ensures BigEndian(MAX_TS, 8)[0] > 0
  {
    Widths();
    BigEndianRoundTrip(MAX_TS, 8);
    var x := BigEndian(MAX_TS, 8);
    if x[0] == 0 {
      SmallIfZeroFirst(x);
    }
  }

  lemma {:induction false} SmallIfZeroFirst(s: Bytes)
    requires s != [] && s[0] == 0
    ensures FromBigEndian(s) < Pow256(|s| - 1)
    decreases |s|
  {
    if |s| > 1 {
      SmallIfZeroFirst(s[..|s| - 1]);
    } else {
      assert s[..0] == [];
    }
  }

  datatype Item = Item(key: Key, val: Option<Bytes>)

  ghost predicate Ordered(s: seq<Item>) {
    forall i, j :: 0 <= i < j < |s| ==> KeyLess(s[i].key, s[j].key)
  }

  /** The versions an ordered list holds. */
  function TableOf(s: seq<Item>): Table {
    if s == [] then map[] else TableOf(s[1..])[s[0].key := s[0].val]
  }

  lemma {:induction false} TableMember(s: seq<Item>, q: Key)
    requires Ordered(s)
    ensures q in TableOf(s) <==> exists i :: 0 <= i < |s| && s[i].key == q
    ensures forall i :: 0 <= i < |s| && s[i].key == q ==> TableOf(s)[q] == s[i].val
  {
    if s != [] {
      TableMember(s[1..], q);
      forall i | 0 < i < |s| ensures s[i].key != s[0].key && s[1..][i - 1] == s[i] {
        KeyLessAsymmetric(s[0].key, s[i].key);
      }
      if exists i :: 0 <= i < |s[1..]| && s[1..][i].key == q {
        var i :| 0 <= i < |s[1..]| && s[1..][i].key == q;
        assert s[i + 1].key == q;
      }
    }
  }

  // ---- Insertion ----

  /** Replaces the version with this key, or puts it in its place. */
  function Inserted(s: seq<Item>, it: Item): seq<Item> {
    if s == [] || KeyLess(it.key, s[0].key) then [it] + s
    else if s[0].key == it.key then [it] + s[1..]
    else [s[0]] + Inserted(s[1..], it)
  }

  lemma ConsOrdered(x: Item, s: seq<Item>)
    requires Ordered(s) && (s != [] ==> KeyLess(x.key, s[0].key))
    ensures Ordered([x] + s)
  {
    forall j | 0 <= j < |s| ensures KeyLess(x.key, s[j].key) {
      if j > 0 {
        KeyLessTransitive(x.key, s[0].key, s[j].key);
      }
    }
  }

  lemma {:induction false} InsertedOk(s: seq<Item>, it: Item)
    requires Ordered(s)
    ensures Ordered(Inserted(s, it)) && TableOf(Inserted(s, it)) == TableOf(s)[it.key := it.val]
    decreases |s|
  {
    if s == [] || KeyLess(it.key, s[0].key) {
      ConsOrdered(it, s);
      assert ([it] + s)[1..] == s;
    } else if s[0].key == it.key {
      assert s[1..] != [] ==> s[1..][0] == s[1];
      ConsOrdered(it, s[1..]);
      assert ([it] + s[1..])[1..] == s[1..];
    } else {
      var rest := Inserted(s[1..], it);
      InsertedOk(s[1..], it);
      KeyLessTotal(it.key, s[0].key);
      InsertedHead(s[1..], it);
      assert s[1..] != [] ==> s[1..][0] == s[1];
      ConsOrdered(s[0], rest);
      assert ([s[0]] + rest)[1..] == rest;
    }
  }

  lemma InsertedHead(s: seq<Item>, it: Item)
    ensures var r := Inserted(s, it); r != [] && (r[0] == it || (s != [] && r[0] == s[0]))
  {
  }

  /** User key, eight timestamp bytes and value. */
  function ItemSize(it: Item): nat {
    |it.key.user| + 8 + if it.val.Some? then |it.val.value| else 0
  }

  function TotalSize(s: seq<Item>): nat {
    if s == [] then 0 else ItemSize(s[0]) + TotalSize(s[1..])
  }

  /** Size of the version an insertion replaces. */
  function ReplacedSize(s: seq<Item>, q: Key): nat {
    if q in TableOf(s) then ItemSize(Item(q, TableOf(s)[q])) else 0
  }

  lemma {:induction false} SizeAfterInsert(s: seq<Item>, it: Item)
    requires Ordered(s)
    ensures ReplacedSize(s, it.key) <= TotalSize(s)
    ensures TotalSize(Inserted(s, it)) == TotalSize(s) - ReplacedSize(s, it.key) + ItemSize(it)
    decreases |s|
  {
    TableMember(s, it.key);
    if s == [] || KeyLess(it.key, s[0].key) {
      assert ([it] + s)[1..] == s;
      forall i | 0 <= i < |s| ensures s[i].key != it.key {
        if i > 0 { KeyLessTransitive(it.key, s[0].key, s[i].key); }
        KeyLessAsymmetric(it.key, s[i].key);
      }
    } else if s[0].key == it.key {
      assert ([it] + s[1..])[1..] == s[1..];
    } else {
      SizeAfterInsert(s[1..], it);
      var rest := Inserted(s[1..], it);
      assert ([s[0]] + rest)[1..] == rest;
    }
  }

  // ---- Lookup ----

  /** Sorts before the seek position of a read of `k` under the bound. */
  predicate BeforeSeek(q: Key, k: Bytes, b: Bound) {
    Less(q.user, k) || (q.user == k && !Within(q.ts, b))
  }

  /** The first entry at or after the seek position, if it is a version of the key. */
  function SeekGet(s: seq<Item>, k: Bytes, b: Bound): Option<Hit> {
    if s == [] then None
    else if BeforeSeek(s[0].key, k, b) then SeekGet(s[1..], k, b)
    else if s[0].key.user == k then Some(Hit(s[0].key.ts, s[0].val))
    else None
  }

  lemma GetAtSame(t: Table, u: Table, k: Bytes, b: Bound)
    requires forall n: nat :: Within(n, b) ==> (Key(k, n) in t <==> Key(k, n) in u)
    requires forall n: nat :: Key(k, n) in t && Key(k, n) in u ==> t[Key(k, n)] == u[Key(k, n)]
    ensures GetAt(t, k, b) == GetAt(u, k, b)
  {
  }

  /** A version newer than all others of its key is the newest, if visible. */
  lemma GetAtNewest(t: Table, q: Key, v: Option<Bytes>, b: Bound)
    requires Within(q.ts, b) && forall n: nat :: Key(q.user, n) in t ==> n < q.ts
    ensures GetAt(t[q := v], q.user, b) == Some(Hit(q.ts, v))
  {
  }

  lemma OthersBehind(s: seq<Item>, k: Bytes, n: nat)
    requires s != [] && Ordered(s) && Key(k, n) in TableOf(s[1..])
    ensures KeyLess(s[0].key, Key(k, n)) && s[0].key != Key(k, n)
  {
    var rest := s[1..];
    TableMember(rest, Key(k, n));
    var i :| 0 <= i < |rest| && rest[i].key == Key(k, n);
    assert s[i + 1] == rest[i];
    KeyLessAsymmetric(s[0].key, s[i + 1].key);
  }

  /** The newest visible version is the first visible one in the order. */
  lemma GetAtCons(s: seq<Item>, k: Bytes, b: Bound)
    requires s != [] && Ordered(s)
    ensures GetAt(TableOf(s), k, b) ==
            if s[0].key.user == k && Within(s[0].key.ts, b) then Some(Hit(s[0].key.ts, s[0].val))
            else GetAt(TableOf(s[1..]), k, b)
  {
    var q, t := s[0].key, TableOf(s[1..]);
    forall n: nat | Key(k, n) in t ensures q != Key(k, n) && (q.user == k ==> n < q.ts) {
      OthersBehind(s, k, n);
      LessIrreflexive(k);
    }
    if q.user == k && Within(q.ts, b) {
      GetAtNewest(t, q, s[0].val, b);
    } else {
      GetAtSame(TableOf(s), t, k, b);
    }
  }

  lemma {:induction false} NothingBehind(s: seq<Item>, k: Bytes, b: Bound)
    requires Ordered(s) && (s != [] ==> Less(k, s[0].key.user))
    ensures GetAt(TableOf(s), k, b) == None
    decreases |s|
  {
    if s != [] {
      GetAtCons(s, k, b);
      LessAsymmetric(k, s[0].key.user);
      if |s| > 1 {
        assert KeyLess(s[0].key, s[1].key);
        if s[0].key.user != s[1].key.user {
          LessTransitive(k, s[0].key.user, s[1].key.user);
        }
      }
      NothingBehind(s[1..], k, b);
    }
  }

  /** Seeking finds exactly the newest version the bound admits. */
  lemma {:induction false} SeekFindsNewest(s: seq<Item>, k: Bytes, b: Bound)
    requires Ordered(s)
    ensures SeekGet(s, k, b) == GetAt(TableOf(s), k, b)
    decreases |s|
  {
    if s != [] {
      GetAtCons(s, k, b);
      LessIrreflexive(k);
      if BeforeSeek(s[0].key, k, b) {
        SeekFindsNewest(s[1..], k, b);
      } else if s[0].key.user != k {
        LessTotal(s[0].key.user, k);
        NothingBehind(s, k, b);
      }
    }
  }

  // ---- Scans ----

  /** The loop over the ordered entries: `current` is the user key being read, and
      `selected` says its visible version has been seen. */
  function ScanFrom(s: seq<Item>, prefix: Bytes, b: Bound, current: Option<Bytes>, selected: bool): seq<(Bytes, Bytes)> {
    if s == [] || !HasPrefix(s[0].key.user, prefix) then [] else
      var q, v := s[0].key, s[0].val;
      var done := selected && current == Some(q.user);
      if done || !Within(q.ts, b) then ScanFrom(s[1..], prefix, b, Some(q.user), done)
      else (if v.Some? then [(q.user, v.value)] else []) + ScanFrom(s[1..], prefix, b, Some(q.user), true)
  }

  lemma {:induction false} BehindPrefix(s: seq<Item>, prefix: Bytes, k: Bytes, b: Bound)
    requires Ordered(s) && s != [] && LessEq(prefix, s[0].key.user) && !HasPrefix(s[0].key.user, prefix) && HasPrefix(k, prefix)
    ensures GetAt(TableOf(s), k, b) == None
  {
    LessTotal(s[0].key.user, k);
    if LessEq(s[0].key.user, k) {
      PrefixRunContiguous(s[0].key.user, k, prefix);
    }
    NothingBehind(s, k, b);
  }

  /** A pass over the entries from the prefix on returns a pair for a key exactly when
      its newest visible version is a put, unless that version was already seen. */
  lemma {:induction false} ScanExact(s: seq<Item>, prefix: Bytes, b: Bound, current: Option<Bytes>, selected: bool, k: Bytes, v: Bytes)
    requires Ordered(s) && (s != [] ==> LessEq(prefix, s[0].key.user))
    ensures (k, v) in ScanFrom(s, prefix, b, current, selected) <==>
            HasPrefix(k, prefix) && ValueOf(GetAt(TableOf(s), k, b)) == Some(v) && !(selected && current == Some(k) && Opens(s, k))
    decreases |s|
  {
    if s != [] {
      var q := s[0].key;
      if !HasPrefix(q.user, prefix) {
        if HasPrefix(k, prefix) {
          BehindPrefix(s, prefix, k, b);
        }
      } else {
        var done := selected && current == Some(q.user);
        GetAtCons(s, k, b);
        NextFrom(s, prefix);
        OpensNext(s, k, b);
        ScanExact(s[1..], prefix, b, Some(q.user), done || Within(q.ts, b), k, v);
      }
    }
  }

  /** The list starts with versions of `k`. */
  predicate Opens(s: seq<Item>, k: Bytes) {
    s != [] && s[0].key.user == k
  }

  lemma NextFrom(s: seq<Item>, prefix: Bytes)
    requires Ordered(s) && s != [] && LessEq(prefix, s[0].key.user)
    ensures s[1..] != [] ==> LessEq(prefix, s[1..][0].key.user)
  {
    if |s| > 1 {
      assert KeyLess(s[0].key, s[1].key);
      if prefix != s[0].key.user && s[0].key.user != s[1].key.user {
        LessTransitive(prefix, s[0].key.user, s[1].key.user);
      }
    }
  }

  /** Versions of a key are contiguous: once passed, it does not come back. */
  lemma OpensNext(s: seq<Item>, k: Bytes, b: Bound)
    requires Ordered(s) && s != []
    ensures s[0].key.user == k && !Opens(s[1..], k) ==> GetAt(TableOf(s[1..]), k, b) == None
  {
    if s[0].key.user == k && !Opens(s[1..], k) {
      if |s| > 1 {
        assert KeyLess(s[0].key, s[1].key);
      }
      NothingBehind(s[1..], k, b);
    }
  }

  /** First position whose user key is not below the prefix. */
  function PrefixStart(s: seq<Item>, prefix: Bytes): (n: nat)
    ensures n <= |s|
  {
    if s == [] || !Less(s[0].key.user, prefix) then 0 else 1 + PrefixStart(s[1..], prefix)
  }

  function ScanPrefixAt(s: seq<Item>, prefix: Bytes, b: Bound): seq<(Bytes, Bytes)> {
    ScanFrom(s[PrefixStart(s, prefix)..], prefix, b, None, false)
  }

  /** A key before the prefix is not under it. */
  lemma {:induction false} SkipBeforePrefix(s: seq<Item>, prefix: Bytes, k: Bytes, b: Bound)
    requires Ordered(s) && HasPrefix(k, prefix)
    ensures var t := s[PrefixStart(s, prefix)..];
            Ordered(t) && (t != [] ==> LessEq(prefix, t[0].key.user)) && GetAt(TableOf(t), k, b) == GetAt(TableOf(s), k, b)
    decreases |s|
  {
    var n := PrefixStart(s, prefix);
    if s != [] {
      LessTotal(s[0].key.user, prefix);
      if n > 0 {
        SkipBeforePrefix(s[1..], prefix, k, b);
        assert s[1..][n - 1..] == s[n..];
        GetAtCons(s, k, b);
        PrefixNotGreater(k, prefix);
        LessAsymmetric(s[0].key.user, prefix);
      }
    }
  }

  /** The snapshot scan returns precisely the keys under the prefix whose newest visible
      version is a put, with that value. */
  lemma ScanPrefixAtExact(s: seq<Item>, prefix: Bytes, b: Bound, k: Bytes, v: Bytes)
    requires Ordered(s) && HasPrefix(k, prefix)
    ensures (k, v) in ScanPrefixAt(s, prefix, b) <==> ValueOf(GetAt(TableOf(s), k, b)) == Some(v)
  {
    SkipBeforePrefix(s, prefix, k, b);
    ScanExact(s[PrefixStart(s, prefix)..], prefix, b, None, false, k, v);
  }

  ghost predicate Ascending(rows: seq<(Bytes, Bytes)>) {
    forall i, j :: 0 <= i < j < |rows| ==> Less(rows[i].0, rows[j].0)
  }

  /** Rows come in key order, one per key, all under the prefix. */
  lemma {:induction false} ScanAscends(s: seq<Item>, prefix: Bytes, b: Bound, current: Option<Bytes>, selected: bool)
    requires Ordered(s)
    ensures var rows := ScanFrom(s, prefix, b, current, selected);
            && Ascending(rows)
            && forall r :: r in rows ==>
                 && HasPrefix(r.0, prefix) && s != [] && LessEq(s[0].key.user, r.0)
                 && (selected && current == Some(s[0].key.user) ==> r.0 != s[0].key.user)
    decreases |s|
  {
    if s != [] && HasPrefix(s[0].key.user, prefix) {
      var q := s[0].key;
      var done := selected && current == Some(q.user);
      ScanAscends(s[1..], prefix, b, Some(q.user), done || Within(q.ts, b));
      var rest := ScanFrom(s[1..], prefix, b, Some(q.user), done || Within(q.ts, b));
      forall r | r in rest ensures LessEq(q.user, r.0) && (done || Within(q.ts, b) ==> Less(q.user, r.0)) {
        assert KeyLess(s[0].key, s[1].key) && s[1..][0] == s[1];
        if Less(q.user, s[1].key.user) && s[1].key.user != r.0 {
          LessTransitive(q.user, s[1].key.user, r.0);
        }
      }
      LessIrreflexive(q.user);
    }
  }

  // ---- The memtable in place ----

  class Memtable {
    var entries: seq<Item>
    var approximateBytes: nat

    ghost function Contents(): Table
      reads this
    {
      TableOf(entries)
    }

    ghost predicate Valid()
      reads this
    {
      Ordered(entries) && approximateBytes == TotalSize(entries)
    }

    constructor ()
      ensures Valid() && Contents() == map[]
    {
      entries, approximateBytes := [], 0;
    }

    /** A put, or a delete for None. */
    method Write(k: Bytes, ts: nat, v: Option<Bytes>)
      requires Valid()
      modifies this
      ensures Valid() && Contents() == old(Contents())[Key(k, ts) := v]
      ensures entries == Inserted(old(entries), Item(Key(k, ts), v))
    {
      var it := Item(Key(k, ts), v);
      InsertedOk(entries, it);
      SizeAfterInsert(entries, it);
      var before := SizeAt(entries, it.key);
      entries := Inserted(entries, it);
      var kept := if before <= approximateBytes then approximateBytes - before else 0;
      approximateBytes := kept + ItemSize(it);
    }

    method Get(k: Bytes, b: Bound) returns (r: Option<Hit>)
      requires Valid()
      ensures r == GetAt(Contents(), k, b)
    {
      SeekFindsNewest(entries, k, b);
      var i := 0;
      assert entries[0..] == entries;
      while i < |entries| && BeforeSeek(entries[i].key, k, b)
        invariant i <= |entries| && SeekGet(entries, k, b) == SeekGet(entries[i..], k, b)
      {
        assert entries[i..][1..] == entries[i + 1..];
        i := i + 1;
      }
      if i < |entries| && entries[i].key.user == k {
        return Some(Hit(entries[i].key.ts, entries[i].val));
      }
      r := None;
    }

    method Scan(prefix: Bytes, b: Bound) returns (out: seq<(Bytes, Bytes)>)
      requires Valid()
      ensures Ascending(out) && forall r :: r in out ==> HasPrefix(r.0, prefix)
      ensures forall k, v :: HasPrefix(k, prefix) ==> ((k, v) in out <==> ValueOf(GetAt(Contents(), k, b)) == Some(v))
    {
      var from := entries[PrefixStart(entries, prefix)..];
      out := ScanItems(from, prefix, b);
      assert Ordered(from);
      ScanAscends(from, prefix, b, None, false);
      forall k, v | HasPrefix(k, prefix) ensures (k, v) in out <==> ValueOf(GetAt(Contents(), k, b)) == Some(v) {
        ScanPrefixAtExact(entries, prefix, b, k, v);
      }
    }
  }

  method SizeAt(s: seq<Item>, q: Key) returns (n: nat)
    requires Ordered(s)
    ensures n == ReplacedSize(s, q)
  {
    TableMember(s, q);
    n := 0;
    for i := 0 to |s|
      invariant forall j :: 0 <= j < i ==> s[j].key != q
    {
      if s[i].key == q {
        return ItemSize(s[i]);
      }
    }
  }

  /** The same pass with the rows collected so far. */
  function ScanOn(s: seq<Item>, prefix: Bytes, b: Bound, current: Option<Bytes>, selected: bool, out: seq<(Bytes, Bytes)>): seq<(Bytes, Bytes)>
    decreases |s|
  {
    if s == [] || !HasPrefix(s[0].key.user, prefix) then out else
      var q, v := s[0].key, s[0].val;
      var done := selected && current == Some(q.user);
      if done || !Within(q.ts, b) then ScanOn(s[1..], prefix, b, Some(q.user), done, out)
      else ScanOn(s[1..], prefix, b, Some(q.user), true, if v.Some? then out + [(q.user, v.value)] else out)
  }

  lemma {:induction false} ScanOnCollects(s: seq<Item>, prefix: Bytes, b: Bound, current: Option<Bytes>, selected: bool, out: seq<(Bytes, Bytes)>)
    ensures ScanOn(s, prefix, b, current, selected, out) == out + ScanFrom(s, prefix, b, current, selected)
    decreases |s|
  {
    if s != [] && HasPrefix(s[0].key.user, prefix) {
      var q, v := s[0].key, s[0].val;
      var done := selected && current == Some(q.user);
      if done || !Within(q.ts, b) {
        ScanOnCollects(s[1..], prefix, b, Some(q.user), done, out);
      } else {
        ScanOnCollects(s[1..], prefix, b, Some(q.user), true, if v.Some? then out + [(q.user, v.value)] else out);
      }
    }
  }

  method ScanItems(s: seq<Item>, prefix: Bytes, b: Bound) returns (out: seq<(Bytes, Bytes)>)
    ensures out == ScanFrom(s, prefix, b, None, false)
  {
    ScanOnCollects(s, prefix, b, None, false, []);
    out := [];
    var current: Option<Bytes>, selected := None, false;
    assert s[0..] == s;
    for i := 0 to |s|
      invariant ScanOn(s[i..], prefix, b, current, selected, out) == ScanOn(s, prefix, b, None, false, [])
    {
      assert s[i..][0] == s[i] && s[i..][1..] == s[i + 1..];
      var q := s[i].key;
      if !HasPrefix(q.user, prefix) {
        return;
      }
      if current != Some(q.user) {
        current, selected := Some(q.user), false;
      }
      if selected {
        continue;
      }
      if !Within(q.ts, b) {
        continue;
      }
      selected := true;
      if s[i].val.Some? {
        out := out + [(q.user, s[i].val.value)];
      }
    }
  }
}
