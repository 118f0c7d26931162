/** The least-recently-used cache of decoded table blocks. */
module BlockCache {
  import opened ByteStrings

  /** Least recently used offset first. */
  datatype Cache = Cache(order: seq<nat>, blocks: map<nat, Bytes>, hits: nat, misses: nat)

  function Without(order: seq<nat>, o: nat): seq<nat> {
    if order == [] then [] else if order[0] == o then order[1..] else [order[0]] + Without(order[1..], o)
  }

  /** `o` becomes the most recently used. */
  function Touched(order: seq<nat>, o: nat): seq<nat> {
    Without(order, o) + [o]
  }

  function AfterGet(c: Cache, o: nat): Cache {
    if o !in c.blocks then c.(misses := c.misses + 1)
    else c.(hits := c.hits + 1, order := Touched(c.order, o))
  }

  function AfterInsert(capacity: nat, c: Cache, o: nat, b: Bytes): Cache {
    if capacity == 0 then c
    else if o in c.blocks then c.(order := Touched(c.order, o), blocks := c.blocks[o := b])
    else if |c.blocks| >= capacity && c.order != [] then
      c.(order := c.order[1..] + [o], blocks := (c.blocks - {c.order[0]})[o := b])
    else c.(order := c.order + [o], blocks := c.blocks[o := b])
  }

  ghost predicate Distinct(order: seq<nat>) {
    forall i, j :: 0 <= i < j < |order| ==> order[i] != order[j]
  }

  ghost predicate CacheOk(capacity: nat, c: Cache) {
    Distinct(c.order) && |c.order| <= capacity && |c.blocks| == |c.order| && forall o :: o in c.blocks <==> o in c.order
  }

  lemma {:induction false} WithoutAbsent(order: seq<nat>, o: nat)
    requires o !in order
    ensures Without(order, o) == order
  {
    if order != [] { WithoutAbsent(order[1..], o); }
  }

  lemma {:induction false} WithoutConcat(p: seq<nat>, t: seq<nat>, o: nat)
    ensures Without(p + t, o) == if o in p then Without(p, o) + t else p + Without(t, o)
    decreases |p|
  {
    if p == [] {
      assert p + t == t;
    } else if p[0] == o {
      assert (p + t)[1..] == p[1..] + t;
    } else {
      WithoutConcat(p[1..], t, o);
      assert (p + t)[1..] == p[1..] + t;
      assert p == [p[0]] + p[1..];
    }
  }

  lemma {:induction false} WithoutMembers(order: seq<nat>, o: nat)
    requires Distinct(order)
    ensures Distinct(Without(order, o)) && |Without(order, o)| == |order| - (if o in order then 1 else 0)
    ensures forall x :: x in Without(order, o) <==> x != o && x in order
    decreases |order|
  {
    if order != [] {
      var rest := order[1..];
      assert forall x :: x in order <==> x == order[0] || x in rest;
      assert order[0] !in rest;
      WithoutMembers(rest, o);
    }
  }

  /** The touched list is distinct, grows only by a new offset, and ends in it. */
  lemma WithoutFacts(order: seq<nat>, o: nat)
    requires Distinct(order)
    ensures Distinct(Touched(order, o)) && (forall x :: x in Touched(order, o) <==> x == o || x in order)
    ensures |Touched(order, o)| == if o in order then |order| else |order| + 1
  {
    WithoutMembers(order, o);
  }

  // ---- The cache as it is updated in place ----

  class BlockCache {
    const capacity: nat
    var order: seq<nat>
    var blocks: map<nat, Bytes>
    var hits: nat
    var misses: nat

    ghost function View(): Cache
      reads this
    {
      Cache(order, blocks, hits, misses)
    }

    ghost predicate Valid()
      reads this
    {
      CacheOk(capacity, View())
    }

    constructor (cap: nat)
      ensures Valid() && capacity == cap && View() == Cache([], map[], 0, 0)
    {
      capacity := cap;
      order, blocks, hits, misses := [], map[], 0, 0;
    }

    method Get(o: nat) returns (r: Option<Bytes>)
      requires Valid()
      modifies this
      ensures Valid() && View() == AfterGet(old(View()), o)
      ensures r == if o in old(blocks) then Some(old(blocks)[o]) else None
    {
      if o !in blocks {
        misses := misses + 1;
        return None;
      }
      hits := hits + 1;
      WithoutFacts(order, o);
      var rest := RemoveFirst(order, o);
      order := rest + [o];
      r := Some(blocks[o]);
    }

    method Insert(o: nat, b: Bytes)
      requires Valid()
      modifies this
      ensures Valid() && View() == AfterInsert(capacity, old(View()), o, b)
    {
      if capacity == 0 {
        return;
      }
      InsertKeeps(capacity, View(), o, b);
      if o in blocks {
        order := RemoveFirst(order, o);
      } else if |blocks| >= capacity && order != [] {
        var evict := order[0];
        order := order[1..];
        blocks := blocks - {evict};
      }
      blocks := blocks[o := b];
      order := order + [o];
    }
  }

  /** Finds the first position of `o` and removes it. */
  method RemoveFirst(order: seq<nat>, o: nat) returns (r: seq<nat>)
    ensures r == Without(order, o)
  {
    var i := 0;
    while i < |order| && order[i] != o
      invariant i <= |order| && o !in order[..i]
    {
      i := i + 1;
    }
    WithoutConcat(order[..i], order[i..], o);
    assert order == order[..i] + order[i..];
    if i < |order| {
      r := order[..i] + order[i + 1..];
    } else {
      r := order;
    }
  }

  lemma InsertKeeps(capacity: nat, c: Cache, o: nat, b: Bytes)
    requires CacheOk(capacity, c)
    ensures CacheOk(capacity, AfterInsert(capacity, c, o, b))
  {
    if o in c.blocks {
      WithoutFacts(c.order, o);
    } else if capacity > 0 && |c.blocks| >= capacity && c.order != [] {
      EvictKeeps(capacity, c, o, b);
    }
  }

  lemma EvictKeeps(capacity: nat, c: Cache, o: nat, b: Bytes)
    requires CacheOk(capacity, c) && c.order != [] && o !in c.blocks
    ensures CacheOk(capacity, c.(order := c.order[1..] + [o], blocks := (c.blocks - {c.order[0]})[o := b]))
  {
  }

  // ---- The stack property ----

  /** One read of a block: looked up, and inserted on a miss. */
  function Access(capacity: nat, c: Cache, o: nat, b: Bytes): Cache {
    if o in c.blocks then AfterGet(c, o) else AfterInsert(capacity, AfterGet(c, o), o, b)
  }

  type Trace = seq<(nat, Bytes)>

  function Run(capacity: nat, trace: Trace): Cache {
    if trace == [] then Cache([], map[], 0, 0)
    else Access(capacity, Run(capacity, trace[..|trace| - 1]), trace[|trace| - 1].0, trace[|trace| - 1].1)
  }

  /** Every offset used so far, least recently used first. */
  function Recency(trace: Trace): seq<nat> {
    if trace == [] then [] else Touched(Recency(trace[..|trace| - 1]), trace[|trace| - 1].0)
  }

  /** The last `n` elements. */
  function Tail(s: seq<nat>, n: nat): seq<nat> {
    if |s| <= n then s else s[|s| - n..]
  }

  lemma {:induction false} RecencyDistinct(trace: Trace)
    ensures Distinct(Recency(trace))
  {
    if trace != [] {
      RecencyDistinct(trace[..|trace| - 1]);
      WithoutFacts(Recency(trace[..|trace| - 1]), trace[|trace| - 1].0);
    }
  }

  /** Using an offset of the tail reorders only the tail. */
  lemma TouchInTail(s: seq<nat>, n: nat, o: nat)
    requires Distinct(s) && o in Tail(s, n)
    ensures Tail(Touched(s, o), n) == Touched(Tail(s, n), o)
  {
    var t := Tail(s, n);
    var p := s[..|s| - |t|];
    TailApart(s, n, o);
    TouchedBehind(p, t, o);
    TouchedLength(t, o);
    TailBehind(p, Touched(t, o), n, s);
  }

  lemma TouchedBehind(p: seq<nat>, t: seq<nat>, o: nat)
    requires o !in p
    ensures Touched(p + t, o) == p + Touched(t, o)
  {
    WithoutConcat(p, t, o);
  }

  lemma TouchedLength(order: seq<nat>, o: nat)
    requires Distinct(order) && o in order
    ensures |Touched(order, o)| == |order|
  {
    WithoutMembers(order, o);
  }

  lemma TailApart(s: seq<nat>, n: nat, o: nat)
    requires Distinct(s) && o in Tail(s, n)
    ensures var p := s[..|s| - |Tail(s, n)|]; s == p + Tail(s, n) && Distinct(Tail(s, n)) && o !in p
  {
  }

  lemma TailBehind(p: seq<nat>, t: seq<nat>, n: nat, s: seq<nat>)
    requires |p| + |t| == |s| && |t| == |Tail(s, n)|
    ensures Tail(p + t, n) == t
  {
  }

  /** Using any other offset pushes the oldest out of a full tail. */
  lemma TouchOutsideTail(s: seq<nat>, n: nat, o: nat)
    requires Distinct(s) && o !in Tail(s, n) && n > 0
    ensures Tail(Touched(s, o), n) == (if |Tail(s, n)| < n then Tail(s, n) else Tail(s, n)[1..]) + [o]
  {
    var t := Tail(s, n);
    var p := s[..|s| - |t|];
    assert s == p + t;
    WithoutConcat(p, t, o);
    WithoutAbsent(t, o);
    TailPush(if o in p then Without(p, o) else p, t, n, o);
  }

  lemma TailPush(p: seq<nat>, t: seq<nat>, n: nat, o: nat)
    requires 0 < n && |t| <= n && (|t| < n ==> p == [])
    ensures Tail(p + t + [o], n) == (if |t| < n then t else t[1..]) + [o]
  {
    var s := p + t + [o];
    if |t| == n {
      assert s[|s| - n..] == t[1..] + [o];
    } else {
      assert s == t + [o];
    }
  }

  /** After any trace the cache holds exactly the most recently used distinct offsets,
      as many as fit, in order of use. */
  lemma {:induction false} HoldsMostRecent(capacity: nat, trace: Trace)
    ensures CacheOk(capacity, Run(capacity, trace)) && Run(capacity, trace).order == Tail(Recency(trace), capacity)
    decreases |trace|
  {
    if trace != [] {
      var init, o, b := trace[..|trace| - 1], trace[|trace| - 1].0, trace[|trace| - 1].1;
      HoldsMostRecent(capacity, init);
      RecencyDistinct(init);
      AccessHolds(capacity, Run(capacity, init), Recency(init), o, b);
    }
  }

  lemma AccessHolds(capacity: nat, c: Cache, recency: seq<nat>, o: nat, b: Bytes)
    requires CacheOk(capacity, c) && Distinct(recency) && c.order == Tail(recency, capacity)
    ensures CacheOk(capacity, Access(capacity, c, o, b))
    ensures Access(capacity, c, o, b).order == Tail(Touched(recency, o), capacity)
  {
    if o in c.blocks {
      TouchInTail(recency, capacity, o);
      WithoutFacts(c.order, o);
    } else if capacity > 0 {
      TouchOutsideTail(recency, capacity, o);
      InsertKeeps(capacity, AfterGet(c, o), o, b);
    }
  }

  lemma TailOfTail(s: seq<nat>, small: nat, large: nat)
    requires small <= large
    ensures Tail(Tail(s, large), small) == Tail(s, small)
  {
  }

  /** A smaller cache's recency list is always a suffix of a larger one's. */
  lemma StackProperty(small: nat, large: nat, trace: Trace)
    requires small <= large
    ensures Run(small, trace).order == Tail(Run(large, trace).order, small)
  {
    HoldsMostRecent(small, trace);
    HoldsMostRecent(large, trace);
    TailOfTail(Recency(trace), small, large);
  }

  /** So hits never decrease, and misses never increase, as capacity grows. */
  lemma {:induction false} HitsGrowWithCapacity(small: nat, large: nat, trace: Trace)
    requires small <= large
    ensures Run(small, trace).hits <= Run(large, trace).hits && Run(small, trace).misses >= Run(large, trace).misses
    decreases |trace|
  {
    if trace != [] {
      var init, o := trace[..|trace| - 1], trace[|trace| - 1].0;
      HitsGrowWithCapacity(small, large, init);
      StackProperty(small, large, init);
      HoldsMostRecent(small, init);
      HoldsMostRecent(large, init);
      assert o in Run(small, init).order ==> o in Run(large, init).order;
      AccessCounts(small, large, Run(small, init), Run(large, init), o, trace[|trace| - 1].1);
    }
  }

  lemma AccessCounts(small: nat, large: nat, c: Cache, d: Cache, o: nat, b: Bytes)
    requires c.hits <= d.hits && c.misses >= d.misses && (o in c.blocks ==> o in d.blocks)
    ensures Access(small, c, o, b).hits <= Access(large, d, o, b).hits
    ensures Access(small, c, o, b).misses >= Access(large, d, o, b).misses
  {
  }

  /** The block of the latest miss of `o`. */
  function LastInserted(capacity: nat, trace: Trace, o: nat): Option<Bytes> {
    if trace == [] then None else
      var init, last := trace[..|trace| - 1], trace[|trace| - 1];
      if last.0 == o && o !in Run(capacity, init).blocks then Some(last.1) else LastInserted(capacity, init, o)
  }

  /** Every cached offset maps to the block last inserted for it. */
  lemma {:induction false} HoldsLastInserted(capacity: nat, trace: Trace, o: nat)
    requires o in Run(capacity, trace).blocks
    ensures LastInserted(capacity, trace, o) == Some(Run(capacity, trace).blocks[o])
    decreases |trace|
  {
    var init, last := trace[..|trace| - 1], trace[|trace| - 1];
    if o in Run(capacity, init).blocks {
      HoldsLastInserted(capacity, init, o);
    }
  }
}
