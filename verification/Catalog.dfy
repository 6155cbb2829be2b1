/** From the hub to the catalog: the event stream, the bridge and ingest in one machine.

    The bridge takes an event by applying it in full and moving its cursor, or dies on it after
    some of its saves and loses the connection.  Publishing, other clients and people's decisions
    go on in between.  `decode` is whatever the body of an event means to ingest. */
module Catalog {
  import E = EventStream
  import H = Hub
  import I = Ingest

  /** What happened to the catalog: an event applied once, the first saves of an event that was
      given up, or a decision. */
  datatype Entry = Once(ev: I.Event, at: int) | Part(ev: I.Event, at: int, n: nat) | Judged(d: I.Decision)

  /** Everything after `cat` is history.  `done` and then `pend` is what happened, `pend` since
      the bridge died on the event in `begun`; `taken` are the events taken, `given` those
      given up half applied. */
  datatype State = State(stream: E.State, cat: I.Catalog, done: seq<Entry>, pend: seq<Entry>,
    taken: seq<H.Event>, begun: seq<H.Event>, given: seq<H.Event>)

  datatype Action =
    | Stream(step: E.Action)
    | Take(now: int)
    | Die(now: int, saves: nat)
    | Judge(d: I.Decision)

  type Decoder = H.Event -> I.Event

  function Happen(cat: I.Catalog, x: Entry): I.Catalog {
    match x
    case Once(ev, at) => I.Full(cat, ev, at)
    case Part(ev, at, n) => if n <= I.Saves(ev) then I.Writes(cat, ev, at, n) else cat
    case Judged(d) => I.Decide(cat, d)
  }

  function Replay(cat: I.Catalog, es: seq<Entry>): I.Catalog {
    if es == [] then cat else Happen(Replay(cat, es[..|es| - 1]), es[|es| - 1])
  }

  function Decisions(es: seq<Entry>): seq<Entry> {
    if es == [] then []
    else Decisions(es[..|es| - 1]) + if es[|es| - 1].Judged? then [es[|es| - 1]] else []
  }

  /** Attempts on an event, ending in one that went through, are that event applied once, when
      the first of them saved its disc. */
  function Mended(pend: seq<Entry>): seq<Entry> {
    if pend == [] || !pend[0].Part? then [] else [Once(pend[0].ev, pend[0].at)] + Decisions(pend[1..])
  }

  function Onces(es: seq<Entry>): seq<I.Event> {
    if es == [] then []
    else Onces(es[..|es| - 1]) + if es[|es| - 1].Once? then [es[|es| - 1].ev] else []
  }

  /** The next frame on the bridge's stream is an event. */
  predicate AtEvent(s: E.State) {
    && 0 <= s.client.conn < |s.conns| && s.client.pos < |s.conns[s.client.conn].out|
    && s.conns[s.client.conn].out[s.client.pos].Ev?
  }

  function EventAt(s: E.State): H.Event
    requires AtEvent(s)
  {
    s.conns[s.client.conn].out[s.client.pos].ev
  }

  function Init(jumps: bool): State { State(E.Init(jumps), map[], [], [], [], [], []) }

  function DoTake(s: State, e: H.Event, ev: I.Event, now: int): State {
    var same := s.begun == [e];
    s.(cat := I.Full(s.cat, ev, now),
       done := s.done + (if same then Mended(s.pend) else s.pend + [Once(ev, now)]), pend := [],
       taken := s.taken + [e], begun := [], given := if same then s.given else s.given + s.begun)
  }

  function DoDie(s: State, e: H.Event, ev: I.Event, now: int, saves: nat): State {
    var n := if saves < I.Saves(ev) then saves else I.Saves(ev);
    if n == 0 then s
    else if s.begun == [e] then s.(cat := I.Writes(s.cat, ev, now, n), pend := s.pend + [Part(ev, now, n)])
    else s.(cat := I.Writes(s.cat, ev, now, n), done := s.done + s.pend, pend := [Part(ev, now, n)],
            begun := [e], given := s.given + s.begun)
  }

  function DoJudge(s: State, d: I.Decision): State {
    if !I.Lands(s.cat, d) then s
    else if s.begun == [] then s.(cat := I.Decide(s.cat, d), done := s.done + [Judged(d)])
    else s.(cat := I.Decide(s.cat, d), pend := s.pend + [Judged(d)])
  }

  function Apply(decode: Decoder, s: State, a: Action): State {
    match a
    case Stream(step) =>
      if step == E.BridgeRead && AtEvent(s.stream) then s else s.(stream := E.Apply(s.stream, step))
    case Judge(d) => DoJudge(s, d)
    case Take(now) =>
      if !AtEvent(s.stream) then s
      else
        var e := EventAt(s.stream);
        DoTake(s, e, decode(e), now).(stream := E.Apply(s.stream, E.BridgeRead))
    case Die(now, saves) =>
      if !AtEvent(s.stream) then s
      else
        var e := EventAt(s.stream);
        DoDie(s, e, decode(e), now, saves).(stream := E.Apply(s.stream, E.BridgeLose))
  }

  function Exec(decode: Decoder, jumps: bool, acts: seq<Action>): State {
    if acts == [] then Init(jumps) else Apply(decode, Exec(decode, jumps, acts[..|acts| - 1]), acts[|acts| - 1])
  }

  function Decoded(decode: Decoder, log: seq<H.Event>): seq<I.Event> {
    seq(|log|, i requires 0 <= i < |log| => decode(log[i]))
  }

  // ---------- every run: what the catalog is made of ----------

  /** The catalog is what happened; each event taken happened once, in the order taken; and the
      only parts in it are saves of events given up. */
  ghost predicate Accounted(decode: Decoder, s: State) {
    && s.cat == Replay(Replay(map[], s.done), s.pend)
    && Onces(s.done) == Decoded(decode, s.taken) && Onces(s.pend) == []
    && (forall x :: x in s.done && x.Part? ==> exists g :: g in s.given && decode(g) == x.ev)
  }

  /** Finishing the event last died on, whenever, would make its attempts one application. */
  ghost predicate Mendable(decode: Decoder, s: State) {
    && (s.begun == [] ==> s.pend == [])
    && (s.begun != [] ==>
          && |s.begun| == 1 && s.pend != [] && s.pend[0].Part?
          && (forall x :: x in s.pend && x.Part? ==> x.ev == decode(s.begun[0]))
          && forall now :: I.Full(s.cat, decode(s.begun[0]), now) == Replay(Replay(map[], s.done), Mended(s.pend)))
  }

  ghost predicate InStep(decode: Decoder, s: State) { Accounted(decode, s) && Mendable(decode, s) }

  lemma ReplaySnoc(cat: I.Catalog, es: seq<Entry>, x: Entry)
    ensures Replay(cat, es + [x]) == Happen(Replay(cat, es), x)
  {
    assert (es + [x])[..|es|] == es;
  }

  lemma {:induction false} ReplayAppend(cat: I.Catalog, a: seq<Entry>, b: seq<Entry>)
    ensures Replay(cat, a + b) == Replay(Replay(cat, a), b)
    decreases |b|
  {
    if b == [] {
      assert a + b == a;
    } else {
      ReplayAppend(cat, a, b[..|b| - 1]);
      assert a + b == (a + b[..|b| - 1]) + [b[|b| - 1]];
      ReplaySnoc(cat, a + b[..|b| - 1], b[|b| - 1]);
    }
  }

  lemma {:induction false} OncesAppend(a: seq<Entry>, b: seq<Entry>)
    ensures Onces(a + b) == Onces(a) + Onces(b)
    decreases |b|
  {
    if b == [] {
      assert a + b == a;
    } else {
      OncesAppend(a, b[..|b| - 1]);
      assert (a + b)[..|a + b| - 1] == a + b[..|b| - 1];
    }
  }

  lemma {:induction false} DecisionsOnly(es: seq<Entry>)
    ensures Onces(Decisions(es)) == [] && forall x :: x in Decisions(es) ==> x.Judged?
  {
    if es != [] {
      var front, last := Decisions(es[..|es| - 1]), es[|es| - 1];
      DecisionsOnly(es[..|es| - 1]);
      if last.Judged? {
        OncesAppend(front, [last]);
        assert [last][..0] == [] && Onces([last]) == Onces([]) + [];
      } else {
        assert Decisions(es) == front + [] == front;
      }
    }
  }

  lemma MendedSnoc(pend: seq<Entry>, x: Entry)
    requires pend != [] && pend[0].Part?
    ensures Mended(pend + [x]) == Mended(pend) + if x.Judged? then [x] else []
  {
    assert (pend + [x])[1..] == pend[1..] + [x];
    assert (pend[1..] + [x])[..|pend| - 1] == pend[1..];
  }

  lemma MendedOnces(pend: seq<Entry>)
    requires pend != [] && pend[0].Part?
    ensures Onces(Mended(pend)) == [pend[0].ev] && forall x :: x in Mended(pend) ==> !x.Part?
  {
    var head := [Once(pend[0].ev, pend[0].at)];
    DecisionsOnly(pend[1..]);
    OncesAppend(head, Decisions(pend[1..]));
    assert head[..0] == [];
  }

  lemma DecodedSnoc(decode: Decoder, taken: seq<H.Event>, e: H.Event)
    ensures Decoded(decode, taken + [e]) == Decoded(decode, taken) + [decode(e)]
  {
  }

  /** Finishing the very event it had died on. */
  lemma TakeMends(decode: Decoder, s: State, e: H.Event, now: int)
    requires InStep(decode, s) && s.begun == [e]
    ensures InStep(decode, DoTake(s, e, decode(e), now))
  {
    MendedOnces(s.pend);
    assert s.pend[0] in s.pend;
    OncesAppend(s.done, Mended(s.pend));
    ReplayAppend(map[], s.done, Mended(s.pend));
    DecodedSnoc(decode, s.taken, e);
  }

  lemma AfterAll(done: seq<Entry>, pend: seq<Entry>, x: Entry)
    requires x.Once? && Onces(pend) == []
    ensures Replay(map[], done + (pend + [x])) == Happen(Replay(Replay(map[], done), pend), x)
    ensures Onces(done + (pend + [x])) == Onces(done) + [x.ev]
  {
    assert done + (pend + [x]) == (done + pend) + [x];
    ReplayAppend(map[], done, pend);
    ReplaySnoc(map[], done + pend, x);
    OncesAppend(done, pend);
    OncesAppend(done + pend, [x]);
    assert [x][..0] == [] && Onces([x]) == Onces([]) + [x.ev];
  }

  /** Taking another event, giving up what was half applied, if anything. */
  lemma TakeAnother(decode: Decoder, s: State, e: H.Event, now: int)
    requires InStep(decode, s) && s.begun != [e]
    ensures InStep(decode, DoTake(s, e, decode(e), now))
  {
    AfterAll(s.done, s.pend, Once(decode(e), now));
    DecodedSnoc(decode, s.taken, e);
    GivenParts(decode, s, s.done + (s.pend + [Once(decode(e), now)]));
  }

  /** What is given up is on the list. */
  lemma GivenParts(decode: Decoder, s: State, done: seq<Entry>)
    requires InStep(decode, s) && forall x :: x in done ==> x in s.done || x in s.pend || !x.Part?
    ensures forall x :: x in done && x.Part? ==> exists g :: g in s.given + s.begun && decode(g) == x.ev
  {
    forall x | x in done && x.Part? ensures exists g :: g in s.given + s.begun && decode(g) == x.ev {
      if x in s.done {
        var g :| g in s.given && decode(g) == x.ev;
        assert g in s.given + s.begun;
      } else {
        assert s.begun[0] in s.given + s.begun;
      }
    }
  }

  /** One more attempt on the same event makes no difference to what finishing it would do. */
  lemma StillMends(base: I.Catalog, cat: I.Catalog, pend: seq<Entry>, ev: I.Event, now: int, n: nat)
    requires 0 < n <= I.Saves(ev) && pend != [] && pend[0].Part?
    requires forall later :: I.Full(cat, ev, later) == Replay(base, Mended(pend))
    ensures forall later ::
      I.Full(I.Writes(cat, ev, now, n), ev, later) == Replay(base, Mended(pend + [Part(ev, now, n)]))
  {
    MendedSnoc(pend, Part(ev, now, n));
    assert Mended(pend) + [] == Mended(pend);
    forall later ensures
      I.Full(I.Writes(cat, ev, now, n), ev, later) == Replay(base, Mended(pend + [Part(ev, now, n)])) {
      I.CrashThenRepeat(cat, ev, now, n, later);
      assert I.Full(cat, ev, now) == Replay(base, Mended(pend));
    }
  }

  lemma DieAgain(decode: Decoder, s: State, e: H.Event, now: int, n: nat)
    requires InStep(decode, s) && s.begun == [e] && 0 < n <= I.Saves(decode(e))
    ensures var x := Part(decode(e), now, n);
      InStep(decode, s.(cat := I.Writes(s.cat, decode(e), now, n), pend := s.pend + [x]))
  {
    var ev, base := decode(e), Replay(map[], s.done);
    var x := Part(ev, now, n);
    ReplaySnoc(base, s.pend, x);
    OncesAppend(s.pend, [x]);
    assert [x][..0] == [] && Onces([x]) == Onces([]) + [];
    assert (s.pend + [x])[0] == s.pend[0];
    StillMends(base, s.cat, s.pend, ev, now, n);
  }

  lemma DieFirst(decode: Decoder, s: State, e: H.Event, now: int, n: nat)
    requires InStep(decode, s) && s.begun != [e] && 0 < n <= I.Saves(decode(e))
    ensures InStep(decode, s.(cat := I.Writes(s.cat, decode(e), now, n), done := s.done + s.pend,
      pend := [Part(decode(e), now, n)], begun := [e], given := s.given + s.begun))
  {
    var ev := decode(e);
    var x := Part(ev, now, n);
    ReplayAppend(map[], s.done, s.pend);
    OncesAppend(s.done, s.pend);
    GivenParts(decode, s, s.done + s.pend);
    FirstMends(s.cat, ev, now, n);
  }

  lemma FirstMends(cat: I.Catalog, ev: I.Event, now: int, n: nat)
    requires 0 < n <= I.Saves(ev)
    ensures var x := Part(ev, now, n);
      && Replay(cat, [x]) == I.Writes(cat, ev, now, n) && Onces([x]) == []
      && forall later :: I.Full(I.Writes(cat, ev, now, n), ev, later) == Replay(cat, Mended([x]))
  {
    var x, y := Part(ev, now, n), Once(ev, now);
    assert [x][..0] == [] && [x][1..] == [] && [y][..0] == [];
    assert Onces([x]) == Onces([]) + [];
    assert Mended([x]) == [y] + Decisions([]) == [y];
    assert Replay(cat, [y]) == I.Full(cat, ev, now);
    forall later ensures I.Full(I.Writes(cat, ev, now, n), ev, later) == Replay(cat, Mended([x])) {
      I.CrashThenRepeat(cat, ev, now, n, later);
    }
  }

  lemma JudgeKeeps(decode: Decoder, s: State, d: I.Decision)
    requires InStep(decode, s)
    ensures InStep(decode, DoJudge(s, d))
  {
    if I.Lands(s.cat, d) {
      var x := Judged(d);
      assert [x][..0] == [];
      if s.begun == [] {
        ReplaySnoc(map[], s.done, x);
        OncesAppend(s.done, [x]);
      } else {
        JudgePending(decode, s, d);
      }
    }
  }

  lemma JudgePending(decode: Decoder, s: State, d: I.Decision)
    requires InStep(decode, s) && s.begun != [] && I.Lands(s.cat, d)
    ensures InStep(decode, s.(cat := I.Decide(s.cat, d), pend := s.pend + [Judged(d)]))
  {
    var x, base, ev := Judged(d), Replay(map[], s.done), decode(s.begun[0]);
    assert [x][..0] == [];
    ReplaySnoc(base, s.pend, x);
    OncesAppend(s.pend, [x]);
    MendedSnoc(s.pend, x);
    ReplaySnoc(base, Mended(s.pend), x);
    assert (s.pend + [x])[0] == s.pend[0];
    forall now ensures I.Full(I.Decide(s.cat, d), ev, now) == I.Decide(I.Full(s.cat, ev, now), d) {
      I.DecisionSurvives(s.cat, d, ev, now);
    }
  }

  lemma StepKeeps(decode: Decoder, s: State, a: Action)
    requires InStep(decode, s)
    ensures InStep(decode, Apply(decode, s, a))
  {
    match a
    case Stream(_) =>
    case Judge(d) => JudgeKeeps(decode, s, d);
    case Take(now) =>
      if AtEvent(s.stream) {
        var e := EventAt(s.stream);
        if s.begun == [e] {
          TakeMends(decode, s, e, now);
        } else {
          TakeAnother(decode, s, e, now);
        }
      }
    case Die(now, saves) =>
      if AtEvent(s.stream) {
        var e := EventAt(s.stream);
        var n := if saves < I.Saves(decode(e)) then saves else I.Saves(decode(e));
        if n > 0 {
          if s.begun == [e] {
            DieAgain(decode, s, e, now, n);
          } else {
            DieFirst(decode, s, e, now, n);
          }
        }
      }
  }

  /** In every run, whatever was dropped, announced as missed or read again, and however often the
      bridge died: the catalog is that of each event taken applied exactly once, in the order
      taken, and of the saves of the events it gave up half applied; so without one given up
      it is that of the events taken. */
  lemma {:induction false} CatalogIsAccountedFor(decode: Decoder, jumps: bool, acts: seq<Action>)
    ensures InStep(decode, Exec(decode, jumps, acts))
  {
    if acts != [] {
      CatalogIsAccountedFor(decode, jumps, acts[..|acts| - 1]);
      StepKeeps(decode, Exec(decode, jumps, acts[..|acts| - 1]), acts[|acts| - 1]);
    }
  }

  // ---------- runs that stray from the log nowhere ----------

  ghost predicate StreamOk(s: E.State) { E.Inv(s) && E.BridgeInv(s) }

  lemma StreamStep(s: E.State, a: E.Action)
    requires StreamOk(s)
    ensures StreamOk(E.Apply(s, a))
  {
    E.StepKeeps(s, a);
    E.BridgeStepKeeps(s, a);
  }

  lemma {:induction false} StreamReach(decode: Decoder, jumps: bool, acts: seq<Action>)
    ensures StreamOk(Exec(decode, jumps, acts).stream)
  {
    if acts != [] {
      var s, a := Exec(decode, jumps, acts[..|acts| - 1]), acts[|acts| - 1];
      StreamReach(decode, jumps, acts[..|acts| - 1]);
      if a.Stream? {
        StreamStep(s.stream, a.step);
      } else if a.Take? {
        StreamStep(s.stream, E.BridgeRead);
      } else if a.Die? {
        StreamStep(s.stream, E.BridgeLose);
      }
    }
  }

  /** The step tries an event after a reconcile frame, or one that passes another over. */
  predicate Strays(s: State, a: Action) {
    (a.Take? || a.Die?) && AtEvent(s.stream) && (s.stream.client.mark || E.Skips(s.stream))
  }

  ghost predicate NeverStrays(decode: Decoder, jumps: bool, acts: seq<Action>) {
    acts != [] ==>
      && NeverStrays(decode, jumps, acts[..|acts| - 1])
      && !Strays(Exec(decode, jumps, acts[..|acts| - 1]), acts[|acts| - 1])
  }

  lemma AtEventOfLog(s: E.State)
    requires E.Inv(s) && AtEvent(s)
    ensures var e := EventAt(s); 1 <= e.id <= |s.log| && s.log[e.id - 1] == e
  {
    var cn := s.conns[s.client.conn];
    assert E.ConnInv(cn, s.log);
    E.FrameFromLog(cn, s.log, s.client.pos, EventAt(s));
  }

  /** The events taken are the first of the log, and the one half applied is the next. */
  ghost predicate Following(s: State) {
    var seen, n := s.stream.client.seen, |s.taken|;
    && |seen| == n && (n > 0 ==> seen[n - 1].id == n)
    && s.taken <= s.stream.log && s.given == []
    && (s.begun != [] ==> n < |s.stream.log| && s.begun == [s.stream.log[n]])
  }

  /** The event at hand is the next one of the log. */
  predicate AtNext(s: State) {
    AtEvent(s.stream) &&
      var n, e := |s.taken|, EventAt(s.stream);
      n < |s.stream.log| && e == s.stream.log[n] && e.id == n + 1
  }

  lemma NextOfLog(s: State)
    requires StreamOk(s.stream) && Following(s) && AtEvent(s.stream)
    requires !s.stream.client.mark && !E.Skips(s.stream)
    ensures AtNext(s)
  {
    AtEventOfLog(s.stream);
    E.TakenNextIff(s.stream, EventAt(s.stream));
  }

  lemma FollowingStream(s: State, step: E.Action)
    requires Following(s) && !(step == E.BridgeRead && AtEvent(s.stream))
    ensures Following(s.(stream := E.Apply(s.stream, step)))
  {
    E.StepExtends(s.stream, step);
    assert E.Apply(s.stream, step).client.seen == s.stream.client.seen;
  }

  lemma FollowingTake(decode: Decoder, s: State, now: int)
    requires Following(s) && AtNext(s)
    ensures Following(Apply(decode, s, Take(now)))
  {
    var e, t := EventAt(s.stream), E.Apply(s.stream, E.BridgeRead);
    E.TakenIsSeen(s.stream, e);
    assert t.log == s.stream.log;
    assert s.taken + [e] <= t.log;
  }

  lemma FollowingDie(decode: Decoder, s: State, now: int, saves: nat)
    requires Following(s) && AtNext(s)
    ensures Following(Apply(decode, s, Die(now, saves)))
  {
    var t := E.Apply(s.stream, E.BridgeLose);
    assert t.log == s.stream.log && t.client.seen == s.stream.client.seen;
  }

  lemma FollowingStep(decode: Decoder, s: State, a: Action)
    requires Following(s) && ((a.Take? || a.Die?) && AtEvent(s.stream) ==> AtNext(s))
    ensures Following(Apply(decode, s, a))
  {
    match a
    case Stream(step) =>
      if !(step == E.BridgeRead && AtEvent(s.stream)) {
        FollowingStream(s, step);
      }
    case Judge(_) =>
    case Take(now) =>
      if AtEvent(s.stream) {
        FollowingTake(decode, s, now);
      }
    case Die(now, saves) =>
      if AtEvent(s.stream) {
        FollowingDie(decode, s, now, saves);
      }
  }

  /** End to end: as long as the bridge tries no event after a reconcile frame and passes none
      over, then over any number of connections, crashes in the middle of an event, other
      clients and people's decisions, it has taken exactly the first events ever published,
      none left out or repeated, has given none up, and the catalog is that of each of them
      applied once, in order. */
  lemma {:induction false} CatalogFollowsTheLog(decode: Decoder, jumps: bool, acts: seq<Action>)
    requires NeverStrays(decode, jumps, acts)
    ensures Following(Exec(decode, jumps, acts)) && InStep(decode, Exec(decode, jumps, acts))
  {
    CatalogIsAccountedFor(decode, jumps, acts);
    if acts != [] {
      var before, a := acts[..|acts| - 1], acts[|acts| - 1];
      CatalogFollowsTheLog(decode, jumps, before);
      StreamReach(decode, jumps, before);
      var s := Exec(decode, jumps, before);
      if (a.Take? || a.Die?) && AtEvent(s.stream) {
        NextOfLog(s);
      }
      FollowingStep(decode, s, a);
    }
  }

  // ---------- an event given up ----------

  lemma Then(decode: Decoder, acts: seq<Action>, s: State, a: Action) returns (acts': seq<Action>, t: State)
    requires Exec(decode, true, acts) == s
    ensures t == Apply(decode, s, a) && Exec(decode, true, acts') == t
  {
    acts', t := acts + [a], Apply(decode, s, a);
    assert acts'[..|acts|] == acts;
  }

  /** A step of the newest stream. */
  lemma Newest(decode: Decoder, acts: seq<Action>, s: State, rest: seq<E.Conn>, cn: E.Conn, a: E.Action)
    returns (acts': seq<Action>, t: State)
    requires Exec(decode, true, acts) == s && s.stream.conns == rest + [cn] && E.IsLocal(a) && a.c == |rest|
    ensures Exec(decode, true, acts') == t
    ensures t == s.(stream := s.stream.(conns := rest + [E.Local(cn, a, s.stream.log)]))
  {
    acts', t := Then(decode, acts, s, Stream(a));
    E.NewestApplies(s.stream, rest, cn, a);
  }

  /** The bridge connects and its stream comes as far as its greeting. */
  lemma Opens(decode: Decoder, acts: seq<Action>, s: State) returns (acts': seq<Action>, t: State)
    requires Exec(decode, true, acts) == s && s.stream.client.conn == -1
    ensures Exec(decode, true, acts') == t && t == s.(stream := t.stream)
    ensures var st, n, from := s.stream, |s.stream.log|, s.stream.client.cursor;
      t.stream == st.(client := st.client.(conn := |st.conns|, used := st.client.used + {|st.conns|}, pos := 0),
        conns := st.conns + [E.Opened(from, n, E.Replaying(H.Missed(st.log, from)), from,
          if H.Complete(n, from) then [E.Hello(n)] else [E.Reconcile(n), E.Hello(n)])])
  {
    var rest, n, from := s.stream.conns, |s.stream.log|, s.stream.client.cursor;
    var c := |rest|;
    acts', t := Then(decode, acts, s, Stream(E.BridgeConnect));
    acts', t := Newest(decode, acts', t, rest, E.NewConn(from, n), E.Snapshot(c));
    var greeting := E.Opened(from, n, E.Greeting(H.Missed(s.stream.log, from), H.Complete(n, from)), from, []);
    acts', t := Newest(decode, acts', t, rest, greeting, E.Greet(c));
    assert [] + [E.Reconcile(n)] + [E.Hello(n)] == [E.Reconcile(n), E.Hello(n)];
    assert [] + [] + [E.Hello(n)] == [E.Hello(n)];
  }

  /** The bridge reads a frame that is not an event. */
  lemma Reads(decode: Decoder, acts: seq<Action>, s: State, f: E.Frame) returns (acts': seq<Action>, t: State)
    requires Exec(decode, true, acts) == s && s.stream.jumps && 0 <= s.stream.client.conn < |s.stream.conns| && !f.Ev?
    requires var cl, cn := s.stream.client, s.stream.conns[s.stream.client.conn];
      cl.pos < |cn.out| && cn.out[cl.pos] == f
    ensures Exec(decode, true, acts') == t
    ensures t == s.(stream := s.stream.(client := E.DoRead(s.stream.client, f, true)))
  {
    acts', t := Then(decode, acts, s, Stream(E.BridgeRead));
  }

  const NEXT: H.Event := H.Event(2, "disc", 0, "")

  /** Publishing on and on: nothing but the log and the streams' buffers changes. */
  lemma {:induction false} PublishesOn(decode: Decoder, acts: seq<Action>, s: State, n: nat)
    returns (acts': seq<Action>, t: State)
    requires Exec(decode, true, acts) == s && |s.stream.log| == 1
    ensures Exec(decode, true, acts') == t && t == s.(stream := t.stream)
    ensures t.stream.client == s.stream.client && t.stream.jumps == s.stream.jumps
    ensures |t.stream.conns| == |s.stream.conns| && |t.stream.log| == n + 1
    ensures n > 0 ==> t.stream.log[1] == NEXT
  {
    if n == 0 {
      acts', t := acts, s;
    } else {
      acts', t := PublishesOn(decode, acts, s, n - 1);
      acts', t := Then(decode, acts', t, Stream(E.Publish("disc", 0, "")));
    }
  }

  /** The bridge dies on event `e` after one save. */
  lemma DiesOnFirst(decode: Decoder, data: string) returns (acts: seq<Action>, s: State)
    requires I.IsDisc(decode(H.Event(1, "disc", 0, data)))
    ensures Exec(decode, true, acts) == s && |s.stream.log| == 1 && s.stream.jumps && |s.stream.conns| == 1
    ensures var e := H.Event(1, "disc", 0, data);
      && s.stream.client == E.Client(-1, {0}, 0, 0, [], false, 0, false) && s.taken == [] && s.given == []
      && s.begun == [e] && s.cat == I.Writes(map[], decode(e), 0, 1)
  {
    var e := H.Event(1, "disc", 0, data);
    acts, s := ShownFirst(decode, data);
    assert AtEvent(s.stream) && EventAt(s.stream) == e;
    acts, s := Then(decode, acts, s, Die(0, 1));
  }

  /** Event `e` is the next frame on the bridge's first stream. */
  lemma ShownFirst(decode: Decoder, data: string) returns (acts: seq<Action>, s: State)
    ensures Exec(decode, true, acts) == s && s == Init(true).(stream := s.stream)
    ensures |s.stream.log| == 1 && s.stream.jumps && |s.stream.conns| == 1
    ensures s.stream.conns[0].out == [E.Hello(1), E.Ev(H.Event(1, "disc", 0, data))]
    ensures s.stream.client == E.Client(0, {0}, 1, 0, [], false, 0, false)
  {
    var e := H.Event(1, "disc", 0, data);
    acts, s := [], Init(true);
    acts, s := Then(decode, acts, s, Stream(E.Publish("disc", 0, data)));
    assert s.stream == E.Init(true).(log := [e]);
    acts, s := Opens(decode, acts, s);
    assert H.Missed([e], 0) == [e] && H.Complete(1, 0);
    var cn := E.Opened(0, 1, E.Replaying([e]), 0, [E.Hello(1)]);
    assert s.stream.conns == [] + [cn];
    acts, s := Newest(decode, acts, s, [], cn, E.Replay(0));
    assert s.stream.conns[0].out == [E.Hello(1)] + [E.Ev(e)];
    acts, s := Reads(decode, acts, s, E.Hello(1));
  }

  /** When the bridge is back, that event is no longer held; it takes the next one instead. */
  lemma TakesAnother(decode: Decoder, acts: seq<Action>, s: State) returns (acts': seq<Action>, t: State)
    requires Exec(decode, true, acts) == s && s.stream.jumps && |s.stream.log| == H.RING_SIZE + 1
    requires |s.stream.conns| == 1 && s.stream.log[1] == NEXT
    requires s.stream.client == E.Client(-1, {0}, 0, 0, [], false, 0, false) && s.begun != [NEXT]
    ensures Exec(decode, true, acts') == t && t.taken == s.taken + [NEXT] && t.given == s.given + s.begun
    ensures t.cat == I.Full(s.cat, decode(NEXT), 0)
  {
    var n, log, first := H.RING_SIZE + 1, s.stream.log, s.stream.conns[0];
    acts', t := Opens(decode, acts, s);
    assert H.Missed(log, 0) == log[1..] && !H.Complete(n, 0);
    var cn := E.Opened(0, n, E.Replaying(log[1..]), 0, [E.Reconcile(n), E.Hello(n)]);
    assert t.stream.conns == [first] + [cn];
    acts', t := Newest(decode, acts', t, [first], cn, E.Replay(1));
    assert log[1..][0] == NEXT;
    assert t.stream.conns[1].out == [E.Reconcile(n), E.Hello(n), E.Ev(NEXT)];
    acts', t := Reads(decode, acts', t, E.Reconcile(n));
    acts', t := Reads(decode, acts', t, E.Hello(n));
    assert AtEvent(t.stream) && EventAt(t.stream) == NEXT;
    acts', t := Then(decode, acts', t, Take(0));
  }

  /** A run that gives an event up: the bridge dies on a disc's event after saving the disc, the
      ring wraps while it is away, and it goes on with the next event.  The catalog keeps a
      disc that no event it ever took accounts for. */
  lemma GivenUpStays(decode: Decoder, data: string) returns (acts: seq<Action>)
    requires var half := decode(H.Event(1, "disc", 0, data));
      I.IsDisc(half) && (I.IsDisc(decode(NEXT)) ==> decode(NEXT).fingerprint != half.fingerprint)
    ensures var e, s := H.Event(1, "disc", 0, data), Exec(decode, true, acts);
      && s.given == [e] && s.taken == [NEXT]
      && decode(e).fingerprint.value in s.cat
      && decode(e).fingerprint.value !in I.Full(map[], decode(NEXT), 0)
  {
    var s: State;
    acts, s := DiesOnFirst(decode, data);
    acts, s := PublishesOn(decode, acts, s, H.RING_SIZE);
    acts, s := TakesAnother(decode, acts, s);
  }

  // ---------- decisions stand ----------

  /** A decision that finds its row takes effect at once. */
  lemma DecisionTakesEffect(decode: Decoder, s: State, d: I.Decision)
    requires I.Lands(s.cat, d)
    ensures var t := Apply(decode, s, Judge(d)); I.Holds(t.cat, d) && t.stream == s.stream
  {
  }

  /** `a` is not another decision on what `d` decides. */
  predicate Leaves(a: Action, d: I.Decision) { a.Judge? ==> I.LeavesIt(I.Judged(a.d), d) }

  lemma WritesKeep(cat: I.Catalog, ev: I.Event, now: int, n: nat, d: I.Decision)
    requires n <= I.Saves(ev) && I.Holds(cat, d)
    ensures I.Holds(I.Writes(cat, ev, now, n), d)
  {
    I.NothingIsTakenBack(cat, ev, now, n, d.fp);
  }

  lemma StepKeepsDecision(decode: Decoder, s: State, a: Action, d: I.Decision)
    requires I.Holds(s.cat, d) && Leaves(a, d)
    ensures I.Holds(Apply(decode, s, a).cat, d)
  {
    if (a.Take? || a.Die?) && AtEvent(s.stream) {
      var ev := decode(EventAt(s.stream));
      var n := if a.Die? && a.saves < I.Saves(ev) then a.saves else I.Saves(ev);
      WritesKeep(s.cat, ev, a.now, n, d);
    }
  }

  /** What a person decided stands, whatever the daemon publishes afterwards and however often the
      bridge dies on it, until a person decides otherwise. */
  lemma {:induction false} DecisionsStand(decode: Decoder, jumps: bool, acts: seq<Action>, d: I.Decision,
      more: seq<Action>)
    requires I.Lands(Exec(decode, jumps, acts).cat, d) && forall a :: a in more ==> Leaves(a, d)
    ensures I.Holds(Exec(decode, jumps, acts + [Judge(d)] + more).cat, d)
    decreases |more|
  {
    var all := acts + [Judge(d)] + more;
    if more == [] {
      assert all[..|all| - 1] == acts;
      DecisionTakesEffect(decode, Exec(decode, jumps, acts), d);
    } else {
      var front, a := more[..|more| - 1], more[|more| - 1];
      assert a in more;
      DecisionsStand(decode, jumps, acts, d, front);
      assert all[..|all| - 1] == acts + [Judge(d)] + front;
      StepKeepsDecision(decode, Exec(decode, jumps, acts + [Judge(d)] + front), a, d);
    }
  }
}
