/** The hybrid logical clock: causality across nodes, and how far a clock may run ahead
    of its wall clock. */
module HybridClock {
  import opened ByteStrings

  const LOGICAL_MAX: nat := 0xffff
  const PHYSICAL_MAX: nat := 0xffff_ffff_ffff
  const U64_MAX: nat := 0xffff_ffff_ffff_ffff

  /** Milliseconds and a 16-bit counter. */
  datatype Stamp = Stamp(physical: nat, logical: nat)

  const ZERO: Stamp := Stamp(0, 0)

  predicate Before(a: Stamp, b: Stamp) {
    a.physical < b.physical || (a.physical == b.physical && a.logical < b.logical)
  }

  function Max(a: nat, b: nat): nat {
    if a >= b then a else b
  }

  /** Saturating increment of the 16-bit counter. */
  function Bumped(n: nat): nat {
    if n >= LOGICAL_MAX then LOGICAL_MAX else n + 1
  }

  function Merged(local: Stamp, now: nat, remote: Stamp): Stamp {
    var pt := Max(Max(now, local.physical), remote.physical);
    Stamp(pt,
      if pt == local.physical && pt == remote.physical then Bumped(Max(local.logical, remote.logical))
      else if pt == local.physical then Bumped(local.logical)
      else if pt == remote.physical then Bumped(remote.logical)
      else 0)
  }

  /** Packed as a commit timestamp; far-future milliseconds saturate. */
  function Pack(s: Stamp): nat {
    (if s.physical <= PHYSICAL_MAX then s.physical else PHYSICAL_MAX) * 0x1_0000 + s.logical
  }

  function Unpack(v: nat): Stamp {
    Stamp(v / 0x1_0000, v % 0x1_0000)
  }

  function Lead(s: Stamp, now: nat): nat {
    if s.physical > now then s.physical - now else 0
  }

  /** A remote sample more than `offset` ahead of the wall clock is refused. */
  predicate Plausible(now: nat, remote: Stamp, offset: nat) {
    remote.physical <= (if now + offset <= U64_MAX then now + offset else U64_MAX)
  }

  class Clock {
    var physical: nat
    var logical: nat

    ghost function View(): Stamp
      reads this
    {
      Stamp(physical, logical)
    }

    constructor ()
      ensures View() == ZERO
    {
      physical, logical := 0, 0;
    }

    method Update(now: nat, remote: Option<Stamp>) returns (s: Stamp)
      modifies this
      ensures s == View() == Merged(old(View()), now, if remote.Some? then remote.value else ZERO)
    {
      var r := if remote.Some? then remote.value else ZERO;
      var pt := Max(Max(now, physical), r.physical);
      var l;
      if pt == physical && pt == r.physical {
        l := Bumped(Max(logical, r.logical));
      } else if pt == physical {
        l := Bumped(logical);
      } else if pt == r.physical {
        l := Bumped(r.logical);
      } else {
        l := 0;
      }
      physical, logical := pt, l;
      s := Stamp(physical, logical);
    }

    method CheckedUpdate(now: nat, remote: Option<Stamp>, offset: nat) returns (s: Option<Stamp>)
      modifies this
      ensures s.None? <==> remote.Some? && !Plausible(now, remote.value, offset)
      ensures if s.None? then View() == old(View())
              else s.value == View() == Merged(old(View()), now, if remote.Some? then remote.value else ZERO)
    {
      if remote.Some? && !Plausible(now, remote.value, offset) {
        return None;
      }
      var t := Update(now, remote);
      s := Some(t);
    }
  }

  // ---- One step ----

  /** A merge moves strictly past the local clock unless the counter is already
      saturated and the milliseconds do not move. */
  lemma MergedPassesLocal(local: Stamp, now: nat, remote: Stamp)
    requires local.logical <= LOGICAL_MAX && remote.logical <= LOGICAL_MAX
    ensures Before(local, Merged(local, now, remote))
       <==> local.logical < LOGICAL_MAX || Max(now, remote.physical) > local.physical
    ensures Merged(local, now, remote).logical <= LOGICAL_MAX
  {
  }

  lemma MergedPassesRemote(local: Stamp, now: nat, remote: Stamp)
    requires local.logical <= LOGICAL_MAX && remote.logical <= LOGICAL_MAX
    ensures Before(remote, Merged(local, now, remote))
       <==> remote.logical < LOGICAL_MAX || Max(now, local.physical) > remote.physical
  {
  }

  lemma PackRoundTrip(s: Stamp)
    requires s.physical <= PHYSICAL_MAX && s.logical <= LOGICAL_MAX
    ensures Unpack(Pack(s)) == s
  {
  }

  lemma PackMonotone(a: Stamp, b: Stamp)
    requires a.logical <= LOGICAL_MAX && b.logical <= LOGICAL_MAX && a.physical <= PHYSICAL_MAX && b.physical <= PHYSICAL_MAX
    ensures Before(a, b) <==> Pack(a) < Pack(b)
  {
  }

  /** Past the counter's end a stalled wall clock repeats a timestamp. */
  lemma SaturatedClockRepeats(physical: nat, now: nat)
    requires now <= physical
    ensures var s := Stamp(physical, LOGICAL_MAX); Pack(Merged(s, now, ZERO)) == Pack(s)
  {
  }

  // ---- Runs across nodes ----

  /** A node stamps an event at wall time `now`, having received the packed stamp of
      event `from` if there is one. */
  datatype Event = Event(node: nat, now: nat, from: Option<nat>)

  predicate WellFormed(run: seq<Event>) {
    forall i :: 0 <= i < |run| && run[i].from.Some? ==> run[i].from.value < i
  }

  /** Index of the node's latest event, or None. */
  function Latest(run: seq<Event>, node: nat): (r: Option<nat>)
    ensures r.Some? ==> r.value < |run| && run[r.value].node == node
    ensures forall i :: 0 <= i < |run| && run[i].node == node ==> r.Some? && i <= r.value
  {
    if run == [] then None
    else if run[|run| - 1].node == node then Some(|run| - 1)
    else Latest(run[..|run| - 1], node)
  }

  /** The stamp of an event that follows `run`, whose stamps are `stamps`. */
  function NextStamp(run: seq<Event>, stamps: seq<Stamp>, e: Event): Stamp
    requires |stamps| == |run| && (e.from.Some? ==> e.from.value < |run|)
  {
    var own := Latest(run, e.node);
    Merged(if own.Some? then stamps[own.value] else ZERO, e.now,
           if e.from.Some? then Unpack(Pack(stamps[e.from.value])) else ZERO)
  }

  function Stamps(run: seq<Event>): (r: seq<Stamp>)
    requires WellFormed(run)
    ensures |r| == |run|
  {
    if run == [] then [] else
      var init := run[..|run| - 1];
      Stamps(init) + [NextStamp(init, Stamps(init), run[|run| - 1])]
  }

  /** Every stamp stays below the counter's and the packing's limits. */
  ghost predicate InRange(stamps: seq<Stamp>) {
    forall i :: 0 <= i < |stamps| ==> stamps[i].logical < LOGICAL_MAX && stamps[i].physical <= PHYSICAL_MAX
  }

  /** Same node, earlier; or received directly. */
  predicate Direct(run: seq<Event>, a: nat, b: nat) {
    a < b < |run| && (run[a].node == run[b].node || run[b].from == Some(a))
  }

  ghost predicate IsChain(run: seq<Event>, chain: seq<nat>) {
    forall i :: 0 <= i < |chain| - 1 ==> Direct(run, chain[i], chain[i + 1])
  }

  ghost predicate HappensBefore(run: seq<Event>, a: nat, b: nat) {
    exists chain: seq<nat> :: |chain| >= 2 && chain[0] == a && chain[|chain| - 1] == b && IsChain(run, chain)
  }

  lemma {:induction false} StampsPrefix(run: seq<Event>, n: nat)
    requires WellFormed(run) && n <= |run|
    ensures Stamps(run[..n]) == Stamps(run)[..n]
    decreases |run|
  {
    if n < |run| {
      var init := run[..|run| - 1];
      StampsPrefix(init, n);
      assert run[..n] == init[..n];
      assert Stamps(run)[..n] == Stamps(init)[..n];
    } else {
      assert run[..n] == run && Stamps(run)[..n] == Stamps(run);
    }
  }

  /** How the stamp of event `b` comes about. */
  lemma {:induction false} StampAt(run: seq<Event>, b: nat)
    requires WellFormed(run) && b < |run|
    ensures Stamps(run)[b] == NextStamp(run[..b], Stamps(run)[..b], run[b])
  {
    var head := run[..b + 1];
    assert head[..b] == run[..b] && head[b] == run[b];
    StampsPrefix(run, b + 1);
    StampsPrefix(run, b);
    assert Stamps(head)[b] == NextStamp(run[..b], Stamps(run[..b]), run[b]);
  }

  lemma {:induction false} PassesReceived(run: seq<Event>, b: nat)
    requires WellFormed(run) && InRange(Stamps(run)) && b < |run| && run[b].from.Some?
    ensures Before(Stamps(run)[run[b].from.value], Stamps(run)[b])
  {
    StampAt(run, b);
    var stamps, own := Stamps(run), Latest(run[..b], run[b].node);
    var a := stamps[run[b].from.value];
    PackRoundTrip(a);
    MergedPassesRemote(if own.Some? then stamps[own.value] else ZERO, run[b].now, a);
  }

  lemma {:induction false} PassesOwn(run: seq<Event>, b: nat)
    requires WellFormed(run) && InRange(Stamps(run)) && b < |run| && Latest(run[..b], run[b].node).Some?
    ensures Before(Stamps(run)[Latest(run[..b], run[b].node).value], Stamps(run)[b])
  {
    StampAt(run, b);
    var stamps, own := Stamps(run), Latest(run[..b], run[b].node).value;
    var r := if run[b].from.Some? then Unpack(Pack(stamps[run[b].from.value])) else ZERO;
    if run[b].from.Some? {
      PackRoundTrip(stamps[run[b].from.value]);
    }
    MergedPassesLocal(stamps[own], run[b].now, r);
  }

  lemma {:induction false} NodeOrder(run: seq<Event>, a: nat, b: nat)
    requires WellFormed(run) && InRange(Stamps(run)) && a < b < |run| && run[a].node == run[b].node
    ensures Before(Stamps(run)[a], Stamps(run)[b])
    decreases b
  {
    assert run[..b][a].node == run[b].node;
    var p := Latest(run[..b], run[b].node).value;
    PassesOwn(run, b);
    if p != a {
      NodeOrder(run, a, p);
    }
  }

  lemma {:induction false} ChainOrder(run: seq<Event>, chain: seq<nat>)
    requires WellFormed(run) && InRange(Stamps(run)) && |chain| >= 2 && IsChain(run, chain)
    ensures chain[0] < |run| && chain[|chain| - 1] < |run|
    ensures Before(Stamps(run)[chain[0]], Stamps(run)[chain[|chain| - 1]])
    decreases |chain|
  {
    var a, b := chain[0], chain[1];
    assert Direct(run, chain[0], chain[0 + 1]);
    if run[a].node == run[b].node {
      NodeOrder(run, a, b);
    } else {
      PassesReceived(run, b);
    }
    if |chain| > 2 {
      var rest := chain[1..];
      forall i | 0 <= i < |rest| - 1 ensures Direct(run, rest[i], rest[i + 1]) {
        assert Direct(run, chain[i + 1], chain[i + 1 + 1]);
      }
      ChainOrder(run, rest);
    }
  }

  /** Happens-before implies a strictly larger packed timestamp. */
  lemma {:induction false} Causality(run: seq<Event>, a: nat, b: nat)
    requires WellFormed(run) && InRange(Stamps(run)) && HappensBefore(run, a, b)
    ensures a < |run| && b < |run| && Pack(Stamps(run)[a]) < Pack(Stamps(run)[b])
  {
    var chain: seq<nat> :| |chain| >= 2 && chain[0] == a && chain[|chain| - 1] == b && IsChain(run, chain);
    ChainOrder(run, chain);
    PackMonotone(Stamps(run)[a], Stamps(run)[b]);
  }

  // ---- Bounded lead ----

  /** One node: reads its wall clock and ticks, or merges a remote sample if plausible. */
  datatype Reading = Reading(now: nat, remote: Option<Stamp>)

  function Step(s: Stamp, r: Reading, offset: nat): Stamp {
    if r.remote.None? then Merged(s, r.now, ZERO)
    else if Plausible(r.now, r.remote.value, offset) then Merged(s, r.now, r.remote.value)
    else s
  }

  function Reads(s: Stamp, readings: seq<Reading>, offset: nat): Stamp
    decreases |readings|
  {
    if readings == [] then s else Reads(Step(s, readings[0], offset), readings[1..], offset)
  }

  ghost predicate WallMonotone(from: nat, readings: seq<Reading>)
    decreases |readings|
  {
    readings == [] || (from <= readings[0].now && WallMonotone(readings[0].now, readings[1..]))
  }

  function WallAfter(from: nat, readings: seq<Reading>): nat
    decreases |readings|
  {
    if readings == [] then from else WallAfter(readings[0].now, readings[1..])
  }

  lemma {:induction false} LeadBounded(s: Stamp, wall: nat, readings: seq<Reading>, offset: nat)
    requires WallMonotone(wall, readings) && s.physical <= wall + offset
    ensures wall <= WallAfter(wall, readings)
    ensures Reads(s, readings, offset).physical <= WallAfter(wall, readings) + offset
    decreases |readings|
  {
    if readings != [] {
      LeadBounded(Step(s, readings[0], offset), readings[0].now, readings[1..], offset);
    }
  }

  /** With a wall clock that never goes back and checked merges, a clock never leads its
      wall clock by more than the offset; so the write wait, capped at the offset, is
      never cut short and the wall clock has caught up when it ends. */
  lemma WaitIsNeverCutShort(readings: seq<Reading>, offset: nat, now: nat)
    requires WallMonotone(0, readings) && WallAfter(0, readings) <= now
    ensures var s := Merged(Reads(ZERO, readings, offset), now, ZERO);
            var wait := if Lead(s, now) <= offset then Lead(s, now) else offset;
            Lead(s, now) <= offset && wait == Lead(s, now) && s.physical <= now + wait
  {
    LeadBounded(ZERO, 0, readings, offset);
  }
}
