/** The event hub: a replay ring over an unbounded log, and non-blocking fanout to
    bounded subscriber channels.

    The class `Hub` keeps the daemon's fields and updates them in place.  What it
    promises is stated against a log that never forgets anything. */
module Hub {
  const RING_SIZE: nat := 4096
  const BUFFER_SIZE: nat := 256

  datatype Event = Event(id: nat, kind: string, at: int, data: string)

  /** A Go channel of capacity BUFFER_SIZE, as far as the hub can see it. */
  datatype Chan = Chan(buf: seq<Event>, closed: bool)

  type ChanId = nat

  /** Ids are handed out from 1 upwards with none left out. */
  ghost predicate Numbered(log: seq<Event>) {
    forall i :: 0 <= i < |log| ==> log[i].id == i + 1
  }

  /** How many of the oldest events no longer fit in the ring. */
  function Evicted(n: nat): nat {
    if n <= RING_SIZE then 0 else n - RING_SIZE
  }

  /** The events of `log` a resumption from `from` can still be given. */
  function Missed(log: seq<Event>, from: nat): seq<Event> {
    var lo := if from < Evicted(|log|) then Evicted(|log|) else from;
    if lo < |log| then log[lo..] else []
  }

  /** What `Since` reports as its second result when `n` events were published. */
  predicate Complete(n: nat, from: nat) {
    if n == 0 then from == 0 else from + 1 >= Evicted(n) + 1 || from >= n
  }

  /** A non-blocking send: a full buffer drops the event. */
  function Offer(buf: seq<Event>, ev: Event): seq<Event> {
    if |buf| < BUFFER_SIZE then buf + [ev] else buf
  }

  ghost function Fanout(chans: map<ChanId, Chan>, subs: set<ChanId>, ev: Event): map<ChanId, Chan> {
    map c | c in chans :: if c in subs then chans[c].(buf := Offer(chans[c].buf, ev)) else chans[c]
  }

  /** Channels are told apart, bounded, and closed exactly when they were released. */
  ghost predicate ChannelsOk(chans: map<ChanId, Chan>, subs: set<ChanId>, released: set<ChanId>, made: nat) {
    && subs <= chans.Keys && released <= chans.Keys && subs !! released
    && (forall c :: c in chans ==> c < made)
    && (forall c :: c in chans ==> |chans[c].buf| <= BUFFER_SIZE)
    && (forall c :: c in chans ==> (chans[c].closed <==> c in released))
  }

  lemma FanoutKeepsOk(chans: map<ChanId, Chan>, subs: set<ChanId>, released: set<ChanId>, made: nat,
      some: set<ChanId>, ev: Event)
    requires ChannelsOk(chans, subs, released, made)
    ensures ChannelsOk(Fanout(chans, some, ev), subs, released, made)
  {
  }

  lemma FanoutStep(chans: map<ChanId, Chan>, done: set<ChanId>, c: ChanId, ev: Event)
    requires c in chans && c !in done && !chans[c].closed
    ensures Fanout(chans, done, ev)[c := Chan(Offer(chans[c].buf, ev), false)]
         == Fanout(chans, done + {c}, ev)
  {
  }

  /** The ring read oldest first, as `orderedLocked` reads it. */
  function Ordered(ring: seq<Event>, start: nat, full: bool): seq<Event>
    requires full ==> start <= |ring|
  {
    if !full then ring else ring[start..] + ring[..start]
  }

  /** Overwriting the oldest slot and moving `start` on is the same as dropping the
      oldest event and appending the new one. */
  lemma RingStep(ring: seq<Event>, start: nat, ev: Event)
    requires start < |ring|
    ensures Ordered(ring[start := ev], if start + 1 == |ring| then 0 else start + 1, true)
         == Ordered(ring, start, true)[1..] + [ev]
  {
    var next := ring[start := ev];
    assert Ordered(ring, start, true)[1..] == ring[start + 1..] + ring[..start];
    assert next[start + 1..] == ring[start + 1..];
    assert next[..start + 1] == ring[..start] + [ev];
  }

  lemma LogGrows(log: seq<Event>, ev: Event, held: seq<Event>)
    requires held == log[Evicted(|log|)..]
    ensures (log + [ev])[Evicted(|log| + 1)..]
         == if |log| < RING_SIZE then held + [ev] else held[1..] + [ev]
  {
  }

  /** The ring holds the newest events of the log, as many as fit. */
  ghost predicate Holds(ring: seq<Event>, start: nat, full: bool, log: seq<Event>) {
    && |ring| <= RING_SIZE && (full ==> |ring| == RING_SIZE && start < RING_SIZE)
    && (!full ==> start == 0 && |log| <= RING_SIZE)
    && Ordered(ring, start, full) == log[Evicted(|log|)..]
  }

  lemma GrowingHolds(ring: seq<Event>, start: nat, full: bool, log: seq<Event>, ev: Event)
    requires Holds(ring, start, full, log) && |ring| < RING_SIZE
    ensures Holds(ring + [ev], start, full, log + [ev])
  {
    LogGrows(log, ev, ring);
  }

  function Successor(start: nat): nat { (start + 1) % RING_SIZE }

  lemma WrappingHolds(ring: seq<Event>, start: nat, full: bool, log: seq<Event>, ev: Event)
    requires Holds(ring, start, full, log) && |ring| == RING_SIZE
    ensures Holds(ring[start := ev], Successor(start), true, log + [ev])
  {
    var held := Ordered(ring, start, full);
    assert held == Ordered(ring, start, true);
    assert |log| >= RING_SIZE;
    LogGrows(log, ev, held);
    RingStep(ring, start, ev);
    assert (start + 1) % RING_SIZE == if start + 1 == |ring| then 0 else start + 1;
  }

  /** Filtering the held events by id, which is what the code does, cuts a slice. */
  lemma {:induction false} FilterIsSlice(log: seq<Event>, from: nat, k: nat)
    requires Numbered(log) && k <= |log|
    ensures Above(log[k..], from) == if from < k then log[k..] else if from < |log| then log[from..] else []
    decreases |log| - k
  {
    if k < |log| {
      FilterIsSlice(log, from, k + 1);
      assert log[k..][1..] == log[k + 1..];
      if from <= k {
        assert log[k..] == [log[k]] + log[k + 1..];
      }
    }
  }

  function Above(evs: seq<Event>, id: nat): seq<Event> {
    if evs == [] then []
    else if evs[0].id > id then [evs[0]] + Above(evs[1..], id)
    else Above(evs[1..], id)
  }

  lemma {:induction false} AboveAppend(evs: seq<Event>, e: Event, id: nat)
    ensures Above(evs + [e], id) == Above(evs, id) + if e.id > id then [e] else []
  {
    if evs == [] {
      assert evs + [e] == [e];
    } else {
      AboveAppend(evs[1..], e, id);
      assert (evs + [e])[1..] == evs[1..] + [e];
    }
  }

  /** The resume id a client sends is an arbitrary uint64, so `id + 1` may wrap to 0.
      It makes no difference: a wrapped id is already past the newest event. */
  lemma ResumeIdWrapIsHarmless(from: nat, n: nat)
    requires from < 0x1_0000_0000_0000_0000 && 0 < n < 0x1_0000_0000_0000_0000
    ensures ((from + 1) % 0x1_0000_0000_0000_0000 >= Evicted(n) + 1 || from >= n) == Complete(n, from)
  {
    if from + 1 == 0x1_0000_0000_0000_0000 {
      assert (from + 1) % 0x1_0000_0000_0000_0000 == 0;
    }
  }

  /** For a resume id the daemon has handed out, `complete` says exactly that no
      event above it was evicted, and the replay is then the whole rest of the log. */
  lemma CompleteMeansNothingEvicted(log: seq<Event>, from: nat)
    requires Numbered(log) && from <= |log|
    ensures Complete(|log|, from) <==> forall e :: e in log && e.id > from ==> e in Missed(log, from)
    ensures Complete(|log|, from) ==> Missed(log, from) == log[from..]
  {
    if Complete(|log|, from) {
      forall e | e in log && e.id > from ensures e in Missed(log, from) {
        var i :| 0 <= i < |log| && log[i] == e;
        assert e == log[from..][i - from];
      }
    } else {
      var e := log[from];
      assert e in log && e.id == from + 1;
      assert forall x :: x in Missed(log, from) ==> x.id > Evicted(|log|);
    }
  }

  class Hub {
    var nextID: nat
    var ring: seq<Event>
    var start: nat
    var full: bool
    var subs: set<ChanId>
    var chans: map<ChanId, Chan>
    var released: set<ChanId>
    var made: nat  // channels made so far: a fresh one is told apart from every earlier one
    ghost var log: seq<Event>

    ghost predicate Valid()
      reads this
    {
      && |log| == nextID && Numbered(log) && Holds(ring, start, full, log)
      && ChannelsOk(chans, subs, released, made)
    }

    constructor ()
      ensures Valid() && log == [] && subs == {} && chans == map[]
    {
      nextID, ring, start, full := 0, [], 0, false;
      subs, chans, released, made, log := {}, map[], {}, 0, [];
    }

    /** Adds to the ring, wrapping once it is full. */
    method Append(ev: Event)
      requires Valid() && ev.id == |log| + 1 && nextID == |log|
      modifies this`ring, this`start, this`full, this`log, this`nextID
      ensures Valid() && log == old(log) + [ev] && nextID == old(nextID) + 1
    {
      nextID := nextID + 1;
      log := log + [ev];
      if |ring| < RING_SIZE {
        GrowingHolds(ring, start, full, old(log), ev);
        ring := ring + [ev];
        return;
      }
      WrappingHolds(ring, start, full, old(log), ev);
      full := true;
      ring := ring[start := ev];
      start := Successor(start);
    }

    /** Go panics on a send to a closed channel, so an open one is demanded here. */
    method TrySend(c: ChanId, ev: Event)
      requires c in chans && !chans[c].closed
      modifies this`chans
      ensures chans == old(chans)[c := Chan(Offer(old(chans)[c].buf, ev), false)]
    {
      var ch := chans[c];
      chans := chans[c := Chan(Offer(ch.buf, ev), false)];
    }

    method Publish(kind: string, at: int, data: string) returns (ev: Event)
      requires Valid()
      modifies this
      ensures Valid() && ev == Event(old(nextID) + 1, kind, at, data)
      ensures log == old(log) + [ev]
      ensures subs == old(subs) && released == old(released)
      ensures chans == Fanout(old(chans), subs, ev)
    {
      ev := Event(nextID + 1, kind, at, data);
      Append(ev);
      FanOut(ev);
    }

    /** Offers an event to every subscriber, in no particular order. */
    method FanOut(ev: Event)
      requires ChannelsOk(chans, subs, released, made)
      modifies this`chans
      ensures ChannelsOk(chans, subs, released, made) && chans == Fanout(old(chans), subs, ev)
    {
      var todo := subs;
      while todo != {}
        invariant todo <= subs
        invariant chans == Fanout(old(chans), subs - todo, ev)
        decreases |todo|
      {
        var c :| c in todo;
        FanoutKeepsOk(old(chans), subs, released, made, subs - todo, ev);
        FanoutStep(old(chans), subs - todo, c, ev);
        assert subs - todo + {c} == subs - (todo - {c});
        TrySend(c, ev);
        todo := todo - {c};
      }
      assert subs - todo == subs;
      FanoutKeepsOk(old(chans), subs, released, made, subs, ev);
    }

    method LastID() returns (id: nat)
      requires Valid()
      ensures id == |log|
    {
      id := nextID;
    }

    method Since(id: nat) returns (events: seq<Event>, complete: bool)
      requires Valid()
      ensures events == Missed(log, id) && complete == Complete(|log|, id)
    {
      var ordered := Ordered(ring, start, full);
      events := [];
      if |ordered| == 0 {
        return [], id == 0 || id == nextID;
      }
      var oldest := ordered[0].id;
      complete := id + 1 >= oldest || id >= nextID;
      assert ordered[..|ordered|] == ordered;
      for i := 0 to |ordered|
        invariant events == Above(ordered[..i], id)
      {
        assert ordered[..i + 1] == ordered[..i] + [ordered[i]];
        AboveAppend(ordered[..i], ordered[i], id);
        if ordered[i].id > id {
          events := events + [ordered[i]];
        }
      }
      FilterIsSlice(log, id, Evicted(|log|));
    }

    method Subscribe() returns (c: ChanId)
      requires Valid()
      modifies this`subs, this`chans, this`made
      ensures Valid() && c !in old(chans)
      ensures chans == old(chans)[c := Chan([], false)] && subs == old(subs) + {c}
    {
      c, made := made, made + 1;
      chans := chans[c := Chan([], false)];
      subs := subs + {c};
    }

    /** Releasing twice is releasing once: the channel is closed at most once. */
    method Release(c: ChanId)
      requires Valid() && c in chans
      modifies this`subs, this`chans, this`released
      ensures Valid() && subs == old(subs) - {c} && released == old(released) + {c}
      ensures chans == old(chans)[c := old(chans)[c].(closed := true)]
    {
      if c in released {
        return;
      }
      released := released + {c};
      subs := subs - {c};
      var ch := chans[c];
      chans := chans[c := ch.(closed := true)];
    }
  }
}
