/** Change delivery: consumers poll the event list through cursors while compaction
    drops what every known consumer has passed. */
module CdcFeed {
  import opened ByteStrings
  import opened CdcText

  datatype Feed = Feed(events: seq<Event>, positions: map<string, nat>)

  /** The events above a sequence, in order. */
  function Above(events: seq<Event>, n: nat): seq<Event> {
    if events == [] then []
    else if events[0].sequence > n then [events[0]] + Above(events[1..], n)
    else Above(events[1..], n)
  }

  /** What a poll returns: the first `limit` events above the cursor. */
  function Polled(events: seq<Event>, last: nat, limit: nat): seq<Event> {
    var ahead := Above(events, last);
    if |ahead| <= limit then ahead else ahead[..limit]
  }

  function Advanced(last: nat, out: seq<Event>): nat {
    if out == [] then last else out[|out| - 1].sequence
  }

  function AfterPoll(feed: Feed, id: string, last: nat, limit: nat): Feed {
    var out := Polled(feed.events, last, limit);
    if out == [] then feed else feed.(positions := feed.positions[id := Advanced(last, out)])
  }

  /** A cutoff of 0 compacts nothing. */
  function Compacted(feed: Feed, cutoff: nat): Feed {
    if cutoff == 0 then feed else feed.(events := Above(feed.events, cutoff))
  }

  ghost predicate IsLowest(m: nat, positions: map<string, nat>) {
    if positions == map[] then m == 0
    else (exists id :: id in positions && positions[id] == m) && forall id :: id in positions ==> m <= positions[id]
  }

  lemma {:induction false} LowestExists(positions: map<string, nat>)
    ensures exists m :: IsLowest(m, positions)
    decreases |positions|
  {
    if positions == map[] {
      assert IsLowest(0, positions);
    } else {
      var id :| id in positions;
      var rest := positions - {id};
      if rest == map[] {
        assert forall x :: x in positions ==> x == id by {
          forall x | x in positions ensures x == id { assert x != id ==> x in rest; }
        }
        assert IsLowest(positions[id], positions);
      } else {
        LowestExists(rest);
        var m :| IsLowest(m, rest);
        assert forall x :: x in positions ==> x == id || x in rest;
        assert IsLowest(if positions[id] < m then positions[id] else m, positions);
      }
    }
  }

  /** Lowest known consumer position, 0 without consumers. */
  ghost function Lowest(positions: map<string, nat>): (m: nat)
    ensures IsLowest(m, positions)
  {
    LowestExists(positions);
    var m :| IsLowest(m, positions);
    m
  }

  // ---- Filtering lemmas ----

  ghost predicate Increasing(events: seq<Event>) {
    forall i, j :: 0 <= i < j < |events| ==> events[i].sequence < events[j].sequence
  }

  lemma {:induction false} AboveMember(events: seq<Event>, n: nat, e: Event)
    ensures e in Above(events, n) <==> e in events && e.sequence > n
  {
    if events != [] { AboveMember(events[1..], n, e); }
  }

  lemma {:induction false} AboveIncreasing(events: seq<Event>, n: nat)
    requires Increasing(events)
    ensures Increasing(Above(events, n))
  {
    if events != [] {
      AboveIncreasing(events[1..], n);
      var tail := Above(events[1..], n);
      forall i | 0 <= i < |tail| ensures events[0].sequence < tail[i].sequence {
        AboveMember(events[1..], n, tail[i]);
        assert tail[i] in tail;
        var j :| 0 <= j < |events[1..]| && events[1..][j] == tail[i];
        assert events[j + 1] == tail[i];
      }
    }
  }

  lemma {:induction false} AboveConcat(a: seq<Event>, b: seq<Event>, n: nat)
    ensures Above(a + b, n) == Above(a, n) + Above(b, n)
    decreases |a|
  {
    if a == [] {
      assert a + b == b;
    } else {
      AboveConcat(a[1..], b, n);
      assert a + b == [a[0]] + (a[1..] + b);
      AboveCons(a[0], a[1..] + b, n);
      AboveCons(a[0], a[1..], n);
      assert a == [a[0]] + a[1..];
    }
  }

  lemma AboveCons(e: Event, events: seq<Event>, n: nat)
    ensures Above([e] + events, n) == (if e.sequence > n then [e] else []) + Above(events, n)
  {
    assert ([e] + events)[1..] == events;
  }

  /** Filtering at a lower bound first changes nothing. */
  lemma {:induction false} AboveAbove(events: seq<Event>, low: nat, n: nat)
    requires low <= n
    ensures Above(Above(events, low), n) == Above(events, n)
  {
    if events != [] {
      AboveAbove(events[1..], low, n);
      if events[0].sequence > low {
        assert Above(events, low)[1..] == Above(events[1..], low);
      }
    }
  }

  lemma {:induction false} AllAbove(events: seq<Event>, n: nat)
    requires forall i :: 0 <= i < |events| ==> events[i].sequence > n
    ensures Above(events, n) == events
  {
    if events != [] { AllAbove(events[1..], n); }
  }

  lemma {:induction false} NoneAbove(events: seq<Event>, n: nat)
    requires forall i :: 0 <= i < |events| ==> events[i].sequence <= n
    ensures Above(events, n) == []
  {
    if events != [] { NoneAbove(events[1..], n); }
  }

  /** Moving the cursor to the last polled event leaves exactly the unpolled ones. */
  lemma AfterTaking(events: seq<Event>, n: nat, k: nat)
    requires Increasing(events) && 0 < k <= |Above(events, n)|
    ensures Above(events, Above(events, n)[k - 1].sequence) == Above(events, n)[k..]
    ensures Above(events, n)[k - 1].sequence > n
  {
    var ahead := Above(events, n);
    var m := ahead[k - 1].sequence;
    AboveIncreasing(events, n);
    AboveMember(events, n, ahead[k - 1]);
    AboveAbove(events, n, m);
    BehindTaken(ahead, k);
  }

  lemma BehindTaken(ahead: seq<Event>, k: nat)
    requires Increasing(ahead) && 0 < k <= |ahead|
    ensures Above(ahead, ahead[k - 1].sequence) == ahead[k..]
  {
    assert ahead == ahead[..k] + ahead[k..];
    SplitAbove(ahead[..k], ahead[k..], ahead[k - 1].sequence);
  }

  lemma SplitAbove(a: seq<Event>, b: seq<Event>, m: nat)
    requires forall i :: 0 <= i < |a| ==> a[i].sequence <= m
    requires forall i :: 0 <= i < |b| ==> b[i].sequence > m
    ensures Above(a + b, m) == b
  {
    NoneAbove(a, m);
    AllAbove(b, m);
    AboveConcat(a, b, m);
    assert [] + b == b;
  }

  /** Compaction drops nothing a cursor still has to read exactly when no event lies
      between the cursor and the cutoff. */
  lemma CompactionKeepsPending(events: seq<Event>, cutoff: nat, last: nat)
    ensures Above(Above(events, cutoff), last) == Above(events, last)
       <==> forall e :: e in events ==> !(last < e.sequence <= cutoff)
  {
    if Above(Above(events, cutoff), last) == Above(events, last) {
      forall e | e in events ensures !(last < e.sequence <= cutoff) {
        AboveMember(events, last, e);
        AboveMember(Above(events, cutoff), last, e);
        AboveMember(events, cutoff, e);
      }
    }
    if forall e :: e in events ==> !(last < e.sequence <= cutoff) {
      SameFilter(events, cutoff, last);
    }
  }

  lemma {:induction false} SameFilter(events: seq<Event>, cutoff: nat, last: nat)
    requires forall e :: e in events ==> !(last < e.sequence <= cutoff)
    ensures Above(Above(events, cutoff), last) == Above(events, last)
  {
    if events != [] {
      assert events[0] in events && forall e :: e in events[1..] ==> e in events;
      SameFilter(events[1..], cutoff, last);
      if events[0].sequence > cutoff {
        assert Above(events, cutoff)[1..] == Above(events[1..], cutoff);
      }
    }
  }

  // ---- One consumer among others ----

  /** `mine` reads through one live cursor; `history` is every event ever appended. */
  datatype World = World(feed: Feed, last: nat, delivered: seq<Event>, history: seq<Event>)

  datatype Step =
    | Append(ev: Event)
    | Poll(limit: nat)
    | PollOther(id: string, from: nat, limit: nat)
    | Compact

  ghost predicate Enabled(w: World, mine: string, step: Step) {
    match step
    case Append(ev) => forall i :: 0 <= i < |w.history| ==> w.history[i].sequence < ev.sequence
    case PollOther(id, _, _) => id != mine
    case _ => true
  }

  ghost function Next(w: World, mine: string, step: Step): World {
    match step
    case Append(ev) => w.(feed := w.feed.(events := w.feed.events + [ev]), history := w.history + [ev])
    case Poll(limit) =>
      var out := Polled(w.feed.events, w.last, limit);
      w.(feed := AfterPoll(w.feed, mine, w.last, limit), last := Advanced(w.last, out), delivered := w.delivered + out)
    case PollOther(id, from, limit) => w.(feed := AfterPoll(w.feed, id, from, limit))
    case Compact => w.(feed := Compacted(w.feed, Lowest(w.feed.positions)))
  }

  ghost predicate Legal(w: World, mine: string, steps: seq<Step>)
    decreases |steps|
  {
    steps == [] || (Enabled(w, mine, steps[0]) && Legal(Next(w, mine, steps[0]), mine, steps[1..]))
  }

  ghost function Run(w: World, mine: string, steps: seq<Step>): World
    decreases |steps|
  {
    if steps == [] then w else Run(Next(w, mine, steps[0]), mine, steps[1..])
  }

  ghost predicate WorldOk(w: World, mine: string, start: nat) {
    && Increasing(w.history) && Increasing(w.feed.events)
    && (forall e :: e in w.feed.events ==> e in w.history)
    && mine in w.feed.positions && w.feed.positions[mine] <= w.last
    && Above(w.feed.events, w.last) == Above(w.history, w.last)
    && Above(w.history, start) == w.delivered + Above(w.history, w.last)
    && (w.last == start || (w.delivered != [] && w.last == w.delivered[|w.delivered| - 1].sequence))
  }

  lemma AppendKeeps(w: World, mine: string, start: nat, ev: Event)
    requires WorldOk(w, mine, start) && Enabled(w, mine, Append(ev))
    ensures WorldOk(Next(w, mine, Append(ev)), mine, start)
  {
    AboveConcat(w.feed.events, [ev], w.last);
    AboveConcat(w.history, [ev], w.last);
    AboveConcat(w.history, [ev], start);
    AboveFresh(w, ev, start);
    forall i | 0 <= i < |w.feed.events| ensures w.feed.events[i].sequence < ev.sequence {
      assert w.feed.events[i] in w.history;
    }
  }

  /** A new event is above the start exactly when it is above the cursor, once the
      cursor has not moved past the end of the history. */
  lemma AboveFresh(w: World, ev: Event, start: nat)
    requires Increasing(w.history) && forall i :: 0 <= i < |w.history| ==> w.history[i].sequence < ev.sequence
    requires Above(w.history, start) == w.delivered + Above(w.history, w.last)
    requires w.last == start || (w.delivered != [] && w.last == w.delivered[|w.delivered| - 1].sequence)
    ensures Above([ev], start) == Above([ev], w.last)
  {
    if w.delivered != [] {
      var d := w.delivered[|w.delivered| - 1];
      assert Above(w.history, start)[|w.delivered| - 1] == d && d in Above(w.history, start);
      AboveMember(w.history, start, d);
    }
    assert [ev][1..] == [];
  }

  lemma Delivered(before: seq<Event>, ahead: seq<Event>, n: nat)
    requires n <= |ahead|
    ensures before + ahead == before + ahead[..n] + ahead[n..]
  {
  }

  lemma PollKeeps(w: World, mine: string, start: nat, limit: nat)
    requires WorldOk(w, mine, start)
    ensures WorldOk(Next(w, mine, Poll(limit)), mine, start)
  {
    var out := Polled(w.feed.events, w.last, limit);
    if out != [] {
      AfterTaking(w.feed.events, w.last, |out|);
      AfterTaking(w.history, w.last, |out|);
      Delivered(w.delivered, Above(w.history, w.last), |out|);
    } else {
      assert w.delivered + [] == w.delivered;
    }
  }

  lemma CompactKeeps(w: World, mine: string, start: nat)
    requires WorldOk(w, mine, start)
    ensures WorldOk(Next(w, mine, Compact), mine, start)
  {
    var cutoff := Lowest(w.feed.positions);
    assert cutoff <= w.feed.positions[mine];
    AboveAbove(w.feed.events, cutoff, w.last);
    AboveIncreasing(w.feed.events, cutoff);
    forall e | e in Above(w.feed.events, cutoff) ensures e in w.history {
      AboveMember(w.feed.events, cutoff, e);
    }
  }

  lemma {:induction false} RunKeeps(w: World, mine: string, start: nat, steps: seq<Step>)
    requires WorldOk(w, mine, start) && Legal(w, mine, steps)
    ensures WorldOk(Run(w, mine, steps), mine, start)
    decreases |steps|
  {
    if steps != [] {
      match steps[0] {
        case Append(ev) => AppendKeeps(w, mine, start, ev);
        case Poll(limit) => PollKeeps(w, mine, start, limit);
        case PollOther(_, _, _) =>
        case Compact => CompactKeeps(w, mine, start);
      }
      RunKeeps(Next(w, mine, steps[0]), mine, start, steps[1..]);
    }
  }

  /** A registered consumer with one live cursor receives, over any interleaving of its
      polls with appends, other consumers' polls and default compactions, exactly the
      events above its start, in order, none lost or repeated: what it has, followed by
      what its next polls will return. */
  lemma ExactDelivery(feed: Feed, history: seq<Event>, mine: string, start: nat, steps: seq<Step>)
    requires Increasing(history) && Increasing(feed.events) && (forall e :: e in feed.events ==> e in history)
    requires Above(feed.events, start) == Above(history, start)
    requires mine in feed.positions && feed.positions[mine] <= start
    requires Legal(World(feed, start, [], history), mine, steps)
    ensures var w := Run(World(feed, start, [], history), mine, steps);
            w.delivered + Above(w.feed.events, w.last) == Above(w.history, start)
  {
    var w := World(feed, start, [], history);
    assert [] + Above(history, start) == Above(history, start);
    RunKeeps(w, mine, start, steps);
  }

  /** The consumer has to be registered: one that has not polled yet loses events to a
      compaction at the position of another consumer. */
  lemma UnregisteredLosesEvents(ev: Event)
    requires ev.sequence > 0
    ensures var feed := Feed([ev], map["other" := ev.sequence]);
            Above(feed.events, 0) == [ev] && Above(Compacted(feed, Lowest(feed.positions)).events, 0) == []
  {
    var positions := map["other" := ev.sequence];
    assert "other" in positions;
    assert Lowest(positions) == ev.sequence;
    NoneAbove([ev], ev.sequence);
    assert [ev][1..] == [];
  }

  // ---- The feed in place ----

  class Changefeed {
    var events: seq<Event>
    var positions: map<string, nat>

    ghost function View(): Feed
      reads this
    {
      Feed(events, positions)
    }

    constructor (loaded: seq<Event>, cursors: map<string, nat>)
      ensures View() == Feed(loaded, cursors)
    {
      events, positions := loaded, cursors;
    }

    method Append(ev: Event)
      modifies this
      ensures View() == Feed(old(events) + [ev], old(positions))
    {
      events := events + [ev];
    }

    /** Returns the events and the advanced cursor. */
    method Poll(id: string, last: nat, limit: nat) returns (out: seq<Event>, cursor: nat)
      modifies this
      ensures out == Polled(old(events), last, limit) && cursor == Advanced(last, out)
      ensures View() == AfterPoll(old(View()), id, last, limit)
    {
      out, cursor := [], last;
      if limit == 0 {
        return;
      }
      out := Collect(events, last, limit);
      if out != [] {
        cursor := out[|out| - 1].sequence;
        positions := positions[id := cursor];
      }
    }

    /** Drops events up to the given sequence, or up to the lowest consumer position. */
    method Compact(retainBelow: Option<nat>) returns (removed: nat)
      modifies this
      ensures var cutoff := if retainBelow.Some? then retainBelow.value else Lowest(old(positions));
              && View() == Compacted(old(View()), cutoff)
              && removed == |old(events)| - |events|
    {
      var cutoff;
      if retainBelow.Some? {
        cutoff := retainBelow.value;
      } else {
        cutoff := FindLowest(positions);
      }
      if cutoff == 0 {
        return 0;
      }
      var before := |events|;
      events := Retain(events, cutoff);
      AboveShorter(old(events), cutoff);
      removed := before - |events|;
    }
  }

  lemma {:induction false} AboveShorter(events: seq<Event>, n: nat)
    ensures |Above(events, n)| <= |events|
  {
    if events != [] { AboveShorter(events[1..], n); }
  }

  method Collect(events: seq<Event>, last: nat, limit: nat) returns (out: seq<Event>)
    requires limit > 0
    ensures out == Polled(events, last, limit)
  {
    out := [];
    assert events[0..] == events;
    for i := 0 to |events|
      invariant |out| < limit && out + Above(events[i..], last) == Above(events, last)
    {
      AboveStep(events, i, last, out);
      if events[i].sequence > last {
        out := out + [events[i]];
        if |out| >= limit {
          return;
        }
      }
    }
  }

  lemma AboveStep(events: seq<Event>, i: nat, last: nat, out: seq<Event>)
    requires i < |events|
    ensures out + Above(events[i..], last)
         == (if events[i].sequence > last then out + [events[i]] else out) + Above(events[i + 1..], last)
  {
    assert events[i..] == [events[i]] + events[i + 1..];
    AboveCons(events[i], events[i + 1..], last);
  }

  method Retain(events: seq<Event>, cutoff: nat) returns (kept: seq<Event>)
    ensures kept == Above(events, cutoff)
  {
    kept := [];
    assert events[0..] == events;
    for i := 0 to |events|
      invariant kept + Above(events[i..], cutoff) == Above(events, cutoff)
    {
      assert events[i..][1..] == events[i + 1..];
      if events[i].sequence > cutoff {
        kept := kept + [events[i]];
      }
    }
  }

  method FindLowest(positions: map<string, nat>) returns (m: nat)
    ensures m == Lowest(positions)
  {
    if positions == map[] {
      return 0;
    }
    var ids := positions.Keys;
    var first :| first in ids;
    m := positions[first];
    ids := ids - {first};
    while ids != {}
      invariant ids <= positions.Keys && first in positions
      invariant exists id :: id in positions && positions[id] == m
      invariant forall id :: id in positions && id !in ids ==> m <= positions[id]
      decreases |ids|
    {
      var id :| id in ids;
      if positions[id] < m {
        m := positions[id];
      }
      ids := ids - {id};
    }
    assert IsLowest(m, positions);
  }
}
