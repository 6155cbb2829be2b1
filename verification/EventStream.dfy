/** Any number of event streams over one hub, and one bridge reading them.

    The state machine interleaves publishing with every step of the stream handler
    (subscribe, snapshot, greet, replay, receive, release) and of the bridge (connect,
    read a frame, lose the connection).  `dropped`, `received`, `subAt`, `base` and
    `offered` are history: no step reads them to decide anything. */
module EventStream {
  import opened Hub

  datatype Frame = Reconcile(lastId: nat) | Hello(lastId: nat) | Ev(ev: Event) | Comment

  datatype Phase = Subscribed | Greeting(missed: seq<Event>, complete: bool) | Replaying(todo: seq<Event>) | Live

  /** One run of the handler.  Its channel is open until `closed`; it is among the
      hub's subscribers while `subscribed`. */
  datatype Conn = Conn(
    from: nat, phase: Phase, sent: nat, out: seq<Frame>,
    buf: seq<Event>, subscribed: bool, closed: bool,
    subAt: nat, base: nat, offered: nat, received: seq<Event>, dropped: set<nat>)

  /** One event the bridge took, and whether a reconcile frame arrived since the one before. */
  datatype Seen = Seen(id: nat, marked: bool, announced: nat)

  /** The bridge, starting from an empty cursor.  `announced` is the largest last_event_id
      of the reconcile frames read so far, `used` the streams it ever opened, and `hasty`
      whether it ever lost a connection after a reconcile frame, having taken some of the
      replay that followed but not all of it. */
  datatype Client = Client(conn: int, used: set<nat>, pos: nat, cursor: nat, seen: seq<Seen>, mark: bool,
      announced: nat, hasty: bool)

  /** `jumps` says whether a reconcile frame moves the cursor, as the bridge has it. */
  datatype State = State(log: seq<Event>, conns: seq<Conn>, client: Client, jumps: bool)

  datatype Action =
    | Publish(kind: string, at: int, data: string)
    | Connect(from: nat)
    | Snapshot(c: nat)
    | Greet(c: nat)
    | Replay(c: nat)
    | Receive(c: nat)
    | KeepAlive(c: nat)
    | Unsubscribe(c: nat)
    | CloseChan(c: nat)
    | BridgeConnect
    | BridgeRead
    | BridgeLose

  function Init(jumps: bool): State {
    State([], [], Client(-1, {}, 0, 0, [], false, 0, false), jumps)
  }

  function NewConn(from: nat, n: nat): Conn {
    Conn(from, Subscribed, from, [], [], true, false, n, 0, n, [], {})
  }

  function OfferTo(cn: Conn, ev: Event): Conn {
    if !cn.subscribed then cn
    else cn.(buf := Offer(cn.buf, ev), offered := ev.id,
             dropped := if |cn.buf| < BUFFER_SIZE then cn.dropped else cn.dropped + {ev.id})
  }

  function DoSnapshot(cn: Conn, log: seq<Event>): Conn {
    if cn.phase != Subscribed || !cn.subscribed then cn
    else cn.(phase := Greeting(Missed(log, cn.from), Complete(|log|, cn.from)), base := |log|)
  }

  function DoGreet(cn: Conn, n: nat): Conn {
    if !cn.phase.Greeting? || !cn.subscribed then cn
    else cn.(phase := Replaying(cn.phase.missed),
             out := cn.out + (if cn.phase.complete then [] else [Reconcile(n)]) + [Hello(n)])
  }

  function DoReplay(cn: Conn): Conn {
    if !cn.phase.Replaying? || !cn.subscribed then cn
    else if cn.phase.todo == [] then cn.(phase := Live)
    else cn.(phase := Replaying(cn.phase.todo[1..]), out := cn.out + [Ev(cn.phase.todo[0])],
        sent := cn.phase.todo[0].id)
  }

  function DoReceive(cn: Conn): Conn {
    if cn.phase != Live || !cn.subscribed || cn.buf == [] then cn
    else
      var ev := cn.buf[0];
      var took := cn.(buf := cn.buf[1..], received := cn.received + [ev]);
      if ev.id <= cn.sent then took else took.(out := cn.out + [Ev(ev)], sent := ev.id)
  }

  function DoRead(cl: Client, f: Frame, jumps: bool): Client {
    match f
    case Reconcile(l) =>
      cl.(pos := cl.pos + 1, mark := true, announced := if l > cl.announced then l else cl.announced,
          cursor := if jumps && l > cl.cursor then l else cl.cursor)
    case Ev(e) =>
      cl.(pos := cl.pos + 1, seen := cl.seen + [Seen(e.id, cl.mark, cl.announced)], mark := false,
          cursor := if e.id > cl.cursor then e.id else cl.cursor)
    case _ => cl.(pos := cl.pos + 1)
  }

  function DoLose(cl: Client): Client {
    cl.(conn := -1, pos := 0, hasty := cl.hasty || (!cl.mark && Prev(cl.seen, |cl.seen|) < cl.announced))
  }

  function Prev(seen: seq<Seen>, k: nat): nat
    requires k <= |seen|
  {
    if k == 0 then 0 else seen[k - 1].id
  }

  function Apply(s: State, a: Action): State {
    match a
    case Publish(kind, at, data) =>
      var ev := Event(|s.log| + 1, kind, at, data);
      s.(log := s.log + [ev], conns := seq(|s.conns|, i requires 0 <= i < |s.conns| => OfferTo(s.conns[i], ev)))
    case Connect(from) => s.(conns := s.conns + [NewConn(from, |s.log|)])
    case BridgeConnect =>
      if s.client.conn >= 0 then s
      else s.(conns := s.conns + [NewConn(s.client.cursor, |s.log|)],
          client := s.client.(conn := |s.conns|, used := s.client.used + {|s.conns|}, pos := 0))
    case BridgeRead =>
      if 0 <= s.client.conn < |s.conns| && s.client.pos < |s.conns[s.client.conn].out|
      then s.(client := DoRead(s.client, s.conns[s.client.conn].out[s.client.pos], s.jumps))
      else s
    case BridgeLose => s.(client := DoLose(s.client))
    case _ =>
      if a.c < |s.conns| then s.(conns := s.conns[a.c := Local(s.conns[a.c], a, s.log)]) else s
  }

  /** The steps of one handler.  Releasing is two steps: the subscriber entry goes first,
      under the lock, and the channel is closed after the lock is given up. */
  function Local(cn: Conn, a: Action, log: seq<Event>): Conn {
    match a
    case Snapshot(_) => DoSnapshot(cn, log)
    case Greet(_) => DoGreet(cn, |log|)
    case Replay(_) => DoReplay(cn)
    case Receive(_) => DoReceive(cn)
    case KeepAlive(_) => if cn.phase == Live && cn.subscribed then cn.(out := cn.out + [Comment]) else cn
    case Unsubscribe(_) => cn.(subscribed := false)
    case CloseChan(_) => if cn.subscribed then cn else cn.(closed := true)
    case _ => cn
  }

  function Exec(jumps: bool, acts: seq<Action>): State {
    if acts == [] then Init(jumps) else Apply(Exec(jumps, acts[..|acts| - 1]), acts[|acts| - 1])
  }

  function Events(out: seq<Frame>): seq<Event> {
    if out == [] then []
    else Events(out[..|out| - 1]) + if out[|out| - 1].Ev? then [out[|out| - 1].ev] else []
  }

  function Max(a: nat, b: nat): nat { if a < b then b else a }

  ghost predicate Increasing(evs: seq<Event>) {
    forall i, j :: 0 <= i < j < |evs| ==> evs[i].id < evs[j].id
  }

  ghost predicate FromLog(evs: seq<Event>, log: seq<Event>) {
    forall e :: e in evs ==> 1 <= e.id <= |log| && log[e.id - 1] == e
  }

  ghost predicate HasId(evs: seq<Event>, id: nat) {
    exists e :: e in evs && e.id == id
  }

  // ---------- what every step keeps, one stream at a time ----------

  /** Everything a channel was offered is received, waiting or dropped, in order. */
  ghost predicate ChanInv(cn: Conn, log: seq<Event>) {
    var acc := cn.received + cn.buf;
    && cn.subAt <= cn.offered <= |log|
    && (cn.subscribed ==> cn.offered == |log|)
    && FromLog(acc, log) && Increasing(acc)
    && (forall e :: e in acc ==> cn.subAt < e.id <= cn.offered)
    && (forall i: nat :: cn.subAt < i <= cn.offered ==> (HasId(acc, i) <==> i !in cn.dropped))
    && (forall i :: i in cn.dropped ==> cn.subAt < i <= cn.offered)
    && |cn.buf| <= BUFFER_SIZE
    && (cn.closed ==> !cn.subscribed)
  }

  function LastOr(evs: seq<Event>, id: nat): nat {
    if evs == [] then id else evs[|evs| - 1].id
  }

  ghost predicate HeadInv(cn: Conn, log: seq<Event>) {
    && (forall k :: 0 <= k < |cn.out| && cn.out[k].Reconcile? ==> k == 0)
    && (cn.phase.Replaying? || cn.phase == Live ==>
          && cn.out != []
          && (cn.out[0].Reconcile? <==> !Complete(cn.base, cn.from))
          && (cn.out[0].Reconcile? ==> cn.base <= cn.out[0].lastId <= |log|))
  }

  /** What has been written is the replay, then what was received above it. */
  ghost predicate OutInv(cn: Conn, log: seq<Event>)
  {
    && cn.base <= |log|
    && (cn.phase != Subscribed ==> cn.subAt <= cn.base)
    && (cn.phase != Live ==> cn.received == [])
    && match cn.phase
       case Subscribed => cn.out == [] && cn.sent == cn.from
       case Greeting(missed, complete) =>
         && cn.out == [] && cn.sent == cn.from
         && missed == Missed(log[..cn.base], cn.from) && complete == Complete(cn.base, cn.from)
       case Replaying(todo) =>
         && Events(cn.out) + todo == Missed(log[..cn.base], cn.from)
         && cn.sent == LastOr(Events(cn.out), cn.from)
       case Live =>
         && Events(cn.out) == Missed(log[..cn.base], cn.from) + Above(cn.received, Max(cn.from, cn.base))
         && cn.sent == LastOr(Above(cn.received, Max(cn.from, cn.base)), Max(cn.from, cn.base))
  }

  ghost predicate ConnInv(cn: Conn, log: seq<Event>) {
    ChanInv(cn, log) && HeadInv(cn, log) && OutInv(cn, log)
  }

  lemma HasIdAppend(evs: seq<Event>, e: Event)
    ensures forall i: nat :: HasId(evs + [e], i) <==> HasId(evs, i) || i == e.id
  {
    forall i: nat ensures HasId(evs + [e], i) <==> HasId(evs, i) || i == e.id {
      if HasId(evs, i) {
        var x :| x in evs && x.id == i;
        assert x in evs + [e];
      }
      if i == e.id {
        assert e in evs + [e];
      }
    }
  }

  lemma PublishKeepsChan(cn: Conn, log: seq<Event>, ev: Event)
    requires ChanInv(cn, log) && ev.id == |log| + 1
    ensures ChanInv(OfferTo(cn, ev), log + [ev])
  {
    if cn.subscribed && |cn.buf| < BUFFER_SIZE {
      assert cn.received + (cn.buf + [ev]) == cn.received + cn.buf + [ev];
      HasIdAppend(cn.received + cn.buf, ev);
    } else if cn.subscribed {
      if HasId(cn.received + cn.buf, ev.id) {
        assert false;
      }
    }
  }

  lemma PublishKeeps(cn: Conn, log: seq<Event>, ev: Event)
    requires ConnInv(cn, log) && ev.id == |log| + 1
    ensures ConnInv(OfferTo(cn, ev), log + [ev])
  {
    PublishKeepsChan(cn, log, ev);
    assert (log + [ev])[..cn.base] == log[..cn.base];
  }

  lemma EventsAppend(out: seq<Frame>, f: Frame)
    ensures Events(out + [f]) == Events(out) + if f.Ev? then [f.ev] else []
  {
    assert (out + [f])[..|out|] == out;
  }

  /** Writing frames leaves the channel alone. */
  lemma ChanFrame(a: Conn, b: Conn, log: seq<Event>)
    requires ChanInv(a, log)
    requires b == a.(phase := b.phase, out := b.out, sent := b.sent, base := b.base)
    ensures ChanInv(b, log)
  {
    assert b.received + b.buf == a.received + a.buf;
  }

  lemma GreetingHasNoEvents(n: nat)
    ensures Events([Hello(n)]) == [] && Events([Reconcile(n), Hello(n)]) == []
  {
    EventsAppend([], Hello(n));
    EventsAppend([], Reconcile(n));
    EventsAppend([Reconcile(n)], Hello(n));
    assert [] + [Hello(n)] == [Hello(n)] && [] + [Reconcile(n)] == [Reconcile(n)];
    assert [Reconcile(n)] + [Hello(n)] == [Reconcile(n), Hello(n)];
  }

  function Greeted(cn: Conn, n: nat, missed: seq<Event>, complete: bool): Conn {
    cn.(phase := Replaying(missed), out := if complete then [Hello(n)] else [Reconcile(n), Hello(n)])
  }

  lemma GreetedKeepsOut(cn: Conn, log: seq<Event>)
    requires OutInv(cn, log) && cn.phase.Greeting?
    ensures OutInv(Greeted(cn, |log|, cn.phase.missed, cn.phase.complete), log)
  {
    var after, missed := Greeted(cn, |log|, cn.phase.missed, cn.phase.complete), cn.phase.missed;
    assert Events(after.out) == [] by {
      GreetingHasNoEvents(|log|);
    }
    assert Events(after.out) + missed == missed;
  }

  lemma GreetedKeepsHead(cn: Conn, log: seq<Event>)
    requires OutInv(cn, log) && cn.phase.Greeting?
    ensures HeadInv(Greeted(cn, |log|, cn.phase.missed, cn.phase.complete), log)
  {
  }

  lemma GreetKeeps(cn: Conn, log: seq<Event>)
    requires ConnInv(cn, log)
    ensures ConnInv(DoGreet(cn, |log|), log)
  {
    if cn.phase.Greeting? && cn.subscribed {
      var after := DoGreet(cn, |log|);
      assert after == Greeted(cn, |log|, cn.phase.missed, cn.phase.complete);
      GreetedKeepsOut(cn, log);
      GreetedKeepsHead(cn, log);
      ChanFrame(cn, after, log);
    }
  }

  lemma ReplayKeepsOut(cn: Conn, log: seq<Event>)
    requires OutInv(cn, log) && cn.phase.Replaying? && cn.phase.todo != []
    ensures OutInv(DoReplay(cn), log)
  {
    var todo, evs := cn.phase.todo, Events(cn.out);
    EventsAppend(cn.out, Ev(todo[0]));
    assert evs + [todo[0]] + todo[1..] == evs + todo;
  }

  /** A replay that has run out has reached the end of what the ring held. */
  lemma ReplayEnds(cn: Conn, log: seq<Event>)
    requires OutInv(cn, log) && cn.phase == Replaying([]) && cn.subscribed && Numbered(log)
    ensures OutInv(DoReplay(cn), log)
  {
    assert Events(cn.out) + [] == Events(cn.out);
    assert Events(cn.out) + Above([], Max(cn.from, cn.base)) == Events(cn.out);
  }

  lemma ReplayKeeps(cn: Conn, log: seq<Event>)
    requires ConnInv(cn, log) && Numbered(log)
    ensures ConnInv(DoReplay(cn), log)
  {
    if cn.phase.Replaying? && cn.subscribed {
      ChanFrame(cn, DoReplay(cn), log);
      if cn.phase.todo == [] {
        ReplayEnds(cn, log);
      } else {
        ReplayKeepsOut(cn, log);
      }
    }
  }

  lemma {:induction false} AboveMembers(evs: seq<Event>, id: nat)
    ensures forall e :: e in Above(evs, id) <==> e in evs && e.id > id
  {
    if evs != [] {
      AboveMembers(evs[1..], id);
      assert evs == [evs[0]] + evs[1..];
    }
  }

  lemma {:induction false} AboveIncreases(evs: seq<Event>, id: nat)
    requires Increasing(evs)
    ensures Increasing(Above(evs, id))
  {
    if evs != [] {
      var rest := Above(evs[1..], id);
      AboveIncreases(evs[1..], id);
      AboveMembers(evs[1..], id);
      forall i | 0 <= i < |rest| ensures evs[0].id < rest[i].id {
        assert rest[i] in rest;
      }
    }
  }

  lemma ReceiveKeepsChan(cn: Conn, log: seq<Event>)
    requires ChanInv(cn, log)
    ensures ChanInv(DoReceive(cn), log)
  {
    if cn.phase == Live && cn.subscribed && cn.buf != [] {
      assert cn.received + [cn.buf[0]] + cn.buf[1..] == cn.received + cn.buf;
    }
  }

  lemma ReceivedIncreases(cn: Conn)
    requires Increasing(cn.received + cn.buf)
    ensures Increasing(cn.received)
    ensures cn.buf != [] ==> forall e :: e in cn.received ==> e.id < cn.buf[0].id
  {
    var acc := cn.received + cn.buf;
    forall i, j | 0 <= i < j < |cn.received| ensures cn.received[i].id < cn.received[j].id {
      assert acc[i].id < acc[j].id;
    }
    if cn.buf != [] {
      forall e | e in cn.received ensures e.id < cn.buf[0].id {
        var i :| 0 <= i < |cn.received| && cn.received[i] == e;
        assert acc[i].id < acc[|cn.received|].id;
      }
    }
  }

  /** What comes next on the channel is above `sent` exactly when it is above the replay. */
  lemma NextIsNew(received: seq<Event>, ev: Event, m: nat)
    requires forall e :: e in received ==> e.id < ev.id
    ensures var sent := LastOr(Above(received, m), m);
      && (ev.id <= sent <==> ev.id <= m)
      && (ev.id <= m ==> Above(received, m) == [])
  {
    var above := Above(received, m);
    AboveMembers(received, m);
    if above != [] {
      assert above[|above| - 1] in above;
    }
  }

  /** `sent` never lets a received event through twice, and never holds a new one back. */
  lemma ReceiveKeepsOut(cn: Conn, log: seq<Event>)
    requires OutInv(cn, log) && Increasing(cn.received + cn.buf)
    ensures OutInv(DoReceive(cn), log)
  {
    if cn.phase == Live && cn.subscribed && cn.buf != [] {
      var ev, m := cn.buf[0], Max(cn.from, cn.base);
      var above, ms := Above(cn.received, m), Missed(log[..cn.base], cn.from);
      ReceivedIncreases(cn);
      NextIsNew(cn.received, ev, m);
      AboveAppend(cn.received, ev, m);
      if ev.id > cn.sent {
        EventsAppend(cn.out, Ev(ev));
        assert ms + above + [ev] == ms + (above + [ev]);
      }
    }
  }

  lemma ReceiveKeeps(cn: Conn, log: seq<Event>)
    requires ConnInv(cn, log)
    ensures ConnInv(DoReceive(cn), log)
  {
    ReceiveKeepsChan(cn, log);
    ReceiveKeepsOut(cn, log);
  }

  lemma SnapshotKeeps(cn: Conn, log: seq<Event>)
    requires ConnInv(cn, log)
    ensures ConnInv(DoSnapshot(cn, log), log)
  {
    assert log[..|log|] == log;
  }

  lemma KeepAliveKeeps(cn: Conn, log: seq<Event>)
    requires ConnInv(cn, log) && cn.phase == Live
    ensures ConnInv(cn.(out := cn.out + [Comment]), log)
  {
    EventsAppend(cn.out, Comment);
    ChanFrame(cn, cn.(out := cn.out + [Comment]), log);
  }

  lemma ReleaseKeeps(cn: Conn, log: seq<Event>)
    requires ConnInv(cn, log)
    ensures ConnInv(cn.(subscribed := false), log)
    ensures !cn.subscribed ==> ConnInv(cn.(closed := true), log)
  {
    assert cn.(subscribed := false).received + cn.buf == cn.received + cn.buf;
  }

  /** What a step of a handler does, one case at a time. */
  lemma LocalCases(cn: Conn, a: Action, log: seq<Event>)
    ensures var t := Local(cn, a, log);
      || t == cn || t == DoSnapshot(cn, log) || t == DoGreet(cn, |log|) || t == DoReplay(cn) || t == DoReceive(cn)
      || (cn.phase == Live && t == cn.(out := cn.out + [Comment]))
      || t == cn.(subscribed := false) || (!cn.subscribed && t == cn.(closed := true))
  {
  }

  lemma LocalKeeps(cn: Conn, a: Action, log: seq<Event>)
    requires ConnInv(cn, log) && Numbered(log)
    ensures ConnInv(Local(cn, a, log), log)
  {
    LocalCases(cn, a, log);
    SnapshotKeeps(cn, log);
    GreetKeeps(cn, log);
    ReplayKeeps(cn, log);
    ReceiveKeeps(cn, log);
    ReleaseKeeps(cn, log);
    if cn.phase == Live {
      KeepAliveKeeps(cn, log);
    }
  }

  ghost predicate AllConns(conns: seq<Conn>, log: seq<Event>) {
    forall c :: 0 <= c < |conns| ==> ConnInv(conns[c], log)
  }

  ghost predicate Inv(s: State) {
    Numbered(s.log) && AllConns(s.conns, s.log)
  }

  lemma ConnectKeeps(conns: seq<Conn>, from: nat, log: seq<Event>)
    requires AllConns(conns, log)
    ensures AllConns(conns + [NewConn(from, |log|)], log)
  {
    assert ConnInv(NewConn(from, |log|), log);
  }

  lemma PublishKeepsAll(s: State, a: Action)
    requires Inv(s) && a.Publish?
    ensures Inv(Apply(s, a))
  {
    var ev := Event(|s.log| + 1, a.kind, a.at, a.data);
    forall c | 0 <= c < |s.conns| ensures ConnInv(OfferTo(s.conns[c], ev), s.log + [ev]) {
      PublishKeeps(s.conns[c], s.log, ev);
    }
  }

  lemma LocalKeepsAll(conns: seq<Conn>, c: nat, cn: Conn, log: seq<Event>)
    requires AllConns(conns, log) && c < |conns| && ConnInv(cn, log)
    ensures AllConns(conns[c := cn], log)
  {
  }

  lemma StepKeeps(s: State, a: Action)
    requires Inv(s)
    ensures Inv(Apply(s, a))
  {
    match a
    case Publish(_, _, _) => PublishKeepsAll(s, a);
    case Connect(from) => ConnectKeeps(s.conns, from, s.log);
    case BridgeConnect => ConnectKeeps(s.conns, s.client.cursor, s.log);
    case BridgeRead =>
    case BridgeLose =>
    case _ =>
      if a.c < |s.conns| {
        LocalKeeps(s.conns[a.c], a, s.log);
        LocalKeepsAll(s.conns, a.c, Local(s.conns[a.c], a, s.log), s.log);
      }
  }

  lemma {:induction false} Reachable(jumps: bool, acts: seq<Action>)
    ensures Inv(Exec(jumps, acts))
  {
    if acts != [] {
      Reachable(jumps, acts[..|acts| - 1]);
      StepKeeps(Exec(jumps, acts[..|acts| - 1]), acts[|acts| - 1]);
    }
  }

  /** Whether the stream `cn` owes its client event `i`: replayed if it was still held
      when the ring was read, delivered live unless its send found the buffer full. */
  ghost predicate Delivered(cn: Conn, i: nat) {
    && cn.from < i
    && (Evicted(cn.base) < i <= cn.base
        || (cn.base < i <= cn.offered && i !in cn.dropped && !HasId(cn.buf, i)))
  }

  /** In every interleaving, what a stream past its replay has written is strictly
      increasing and is exactly what it owes, event for event; and it opens with a
      reconcile frame exactly when the ring no longer covers the resume id. */
  lemma ExactDelivery(jumps: bool, acts: seq<Action>, c: nat)
    requires c < |Exec(jumps, acts).conns| && Exec(jumps, acts).conns[c].phase == Live
    ensures var s := Exec(jumps, acts); var cn := s.conns[c];
      && Increasing(Events(cn.out)) && FromLog(Events(cn.out), s.log)
      && (forall i: nat :: HasId(Events(cn.out), i) <==> Delivered(cn, i))
      && (exists k :: 0 <= k < |cn.out| && cn.out[k].Reconcile?) == !Complete(cn.base, cn.from)
      && (!Complete(cn.base, cn.from) ==> cn.out[0].Reconcile?)
  {
    Reachable(jumps, acts);
    var s := Exec(jumps, acts);
    var cn := s.conns[c];
    PlannedIds(cn, s.log);
  }

  lemma MissedIds(log: seq<Event>, base: nat, from: nat)
    requires Numbered(log) && base <= |log|
    ensures var ms := Missed(log[..base], from);
      && Increasing(ms) && FromLog(ms, log)
      && (forall e :: e in ms ==> from < e.id <= base)
      && (forall i: nat :: HasId(ms, i) <==> from < i && Evicted(base) < i <= base)
  {
    var lo := Max(from, Evicted(base));
    if lo < base {
      assert Missed(log[..base], from) == log[lo..base];
      SliceIds(log, lo, base);
    }
  }

  lemma SliceIds(log: seq<Event>, lo: nat, hi: nat)
    requires Numbered(log) && lo <= hi <= |log|
    ensures var ms := log[lo..hi];
      && Increasing(ms) && FromLog(ms, log)
      && (forall e :: e in ms ==> lo < e.id <= hi)
      && (forall i: nat :: HasId(ms, i) <==> lo < i <= hi)
  {
    var ms := log[lo..hi];
    forall i: nat | lo < i <= hi ensures HasId(ms, i) {
      assert ms[i - 1 - lo] == log[i - 1];
    }
  }

  /** The events a stream writes once its replay is planned, in the order it writes them. */
  ghost function Planned(cn: Conn, log: seq<Event>): seq<Event>
    requires cn.base <= |log|
  {
    Missed(log[..cn.base], cn.from) + Above(cn.received, Max(cn.from, cn.base))
  }

  lemma PlannedIds(cn: Conn, log: seq<Event>)
    requires ConnInv(cn, log) && Numbered(log) && cn.phase != Subscribed
    ensures Increasing(Planned(cn, log)) && FromLog(Planned(cn, log), log)
    ensures forall i: nat :: HasId(Planned(cn, log), i) <==> Delivered(cn, i)
  {
    var m := Max(cn.from, cn.base);
    var ms, above := Missed(log[..cn.base], cn.from), Above(cn.received, m);
    MissedIds(log, cn.base, cn.from);
    ReceivedIncreases(cn);
    AboveMembers(cn.received, m);
    AboveIncreases(cn.received, m);
    forall i: nat ensures HasId(ms + above, i) <==> Delivered(cn, i) {
      SplitId(ms, above, i);
      SplitId(cn.received, cn.buf, i);
      if HasId(cn.received, i) {
        SameIdTwice(cn.received, cn.buf, i);
      }
    }
  }

  lemma SplitId(a: seq<Event>, b: seq<Event>, i: nat)
    ensures HasId(a + b, i) <==> HasId(a, i) || HasId(b, i)
  {
    if HasId(a, i) {
      var e :| e in a && e.id == i;
      assert e in a + b;
    } else if HasId(b, i) {
      var e :| e in b && e.id == i;
      assert e in a + b;
    }
  }

  lemma SameIdTwice(a: seq<Event>, b: seq<Event>, i: nat)
    requires Increasing(a + b) && HasId(a, i)
    ensures !HasId(b, i)
  {
    var e :| e in a && e.id == i;
    var k :| 0 <= k < |a| && a[k] == e;
    forall l | 0 <= l < |b| ensures b[l].id != i {
      assert (a + b)[k] == a[k] && (a + b)[|a| + l] == b[l];
    }
  }

  /** A resume id the hub never handed out silences the stream until ids catch up with it:
      with nothing dropped and nothing waiting, every event published after the replay
      was written exactly when the resume id was not ahead of the hub (or nothing was published). */
  lemma ResumeAheadSilences(jumps: bool, acts: seq<Action>, c: nat)
    requires c < |Exec(jumps, acts).conns| && Exec(jumps, acts).conns[c].phase == Live
    requires Exec(jumps, acts).conns[c].dropped == {} && Exec(jumps, acts).conns[c].buf == []
    ensures var cn := Exec(jumps, acts).conns[c];
      (forall i: nat :: cn.base < i <= cn.offered ==> HasId(Events(cn.out), i))
      <==> cn.from <= cn.base || cn.offered <= cn.base
  {
    ExactDelivery(jumps, acts, c);
    Reachable(jumps, acts);
    var cn := Exec(jumps, acts).conns[c];
    if cn.base < cn.from && cn.base < cn.offered {
      assert !HasId(Events(cn.out), cn.base + 1);
    }
  }

  // ---------- the bridge across reconnects ----------

  ghost predicate Lost(s: State, i: nat) {
    exists c :: 0 <= c < |s.conns| && c in s.client.used && i in s.conns[c].dropped
  }

  /** Entry `k` follows the one before it with no gap, or with one that is accounted for. */
  ghost predicate EntryOk(s: State, k: nat)
    requires k < |s.client.seen|
  {
    var e, p := s.client.seen[k], Prev(s.client.seen, k);
    && p < e.id <= |s.log|
    && (forall i: nat :: p < i < e.id ==> e.marked || Lost(s, i) || (s.jumps && s.client.hasty && i <= e.announced))
  }

  /** Where the bridge stands in the stream it has open. */
  ghost predicate Session(cn: Conn, cl: Client, jumps: bool) {
    && cl.pos <= |cn.out| && cn.from <= cn.subAt
    && var evs, prev := Events(cn.out[..cl.pos]), Prev(cl.seen, |cl.seen|);
    && (evs != [] ==> prev == LastOr(evs, 0))
    && (evs == [] ==> prev <= cn.from && (prev == cn.from || cl.mark || (jumps && cl.hasty && cn.from <= cl.announced)))
    && (evs == [] && cl.pos > 0 && cn.out[0].Reconcile? ==> cl.mark)
  }

  ghost predicate SessionInv(s: State) {
    0 <= s.client.conn ==>
      && s.client.conn < |s.conns| && s.client.conn in s.client.used
      && Session(s.conns[s.client.conn], s.client, s.jumps)
  }

  ghost predicate BridgeInv(s: State) {
    var cl := s.client;
    && Prev(cl.seen, |cl.seen|) <= cl.cursor <= |s.log|
    && (Prev(cl.seen, |cl.seen|) == cl.cursor || (s.jumps && cl.cursor <= cl.announced))
    && (cl.conn < 0 ==>
          Prev(cl.seen, |cl.seen|) == cl.cursor || cl.mark || (s.jumps && cl.hasty && cl.cursor <= cl.announced))
    && (forall k :: 0 <= k < |cl.seen| ==> EntryOk(s, k))
    && SessionInv(s)
  }

  lemma {:induction false} EventsPrefix(out: seq<Frame>, pos: nat)
    requires pos <= |out|
    ensures Events(out[..pos]) <= Events(out)
    decreases |out| - pos
  {
    if pos == |out| {
      assert out[..pos] == out;
    } else {
      EventsPrefix(out, pos + 1);
      assert out[..pos + 1] == out[..pos] + [out[pos]];
      EventsAppend(out[..pos], out[pos]);
    }
  }

  lemma BetweenNeighbours(plan: seq<Event>, k: nat, i: nat)
    requires Increasing(plan) && k < |plan| && i < plan[k].id && (k > 0 ==> plan[k - 1].id < i)
    ensures !HasId(plan, i) && HasId(plan, plan[k].id) && (k > 0 ==> HasId(plan, plan[k - 1].id))
  {
    forall j | 0 <= j < |plan| ensures plan[j].id != i {
      assert j < k ==> plan[j].id <= plan[k - 1].id;
    }
    assert plan[k] in plan;
    assert k > 0 ==> plan[k - 1] in plan;
  }

  /** An id skipped before a delivered one was evicted or dropped. */
  lemma SkippedIds(cn: Conn, log: seq<Event>, id: nat, i: nat)
    requires ChanInv(cn, log) && cn.subAt <= cn.base && Delivered(cn, id) && !Delivered(cn, i) && cn.from < i < id
    ensures i <= Evicted(cn.base) || (cn.base < i && i in cn.dropped)
  {
    if cn.base < i && i !in cn.dropped {
      assert HasId(cn.received + cn.buf, id) && HasId(cn.received + cn.buf, i);
      LateBuffer(cn, id, i);
    }
  }

  /** Between two neighbours a stream writes there are only ids its buffer dropped; before
      the first there may also be evicted ones, and then a reconcile frame went out. */
  lemma NeighbourGap(cn: Conn, log: seq<Event>, k: nat, i: nat)
    requires ConnInv(cn, log) && Numbered(log) && (cn.phase.Replaying? || cn.phase == Live)
    requires cn.from <= cn.subAt && k < |Planned(cn, log)| && i < Planned(cn, log)[k].id
    requires if k == 0 then cn.from < i else Planned(cn, log)[k - 1].id < i
    ensures (cn.base < i && i in cn.dropped) || (k == 0 && cn.out[0].Reconcile?)
  {
    var plan := Planned(cn, log);
    PlannedIds(cn, log);
    BetweenNeighbours(plan, k, i);
    assert Delivered(cn, plan[k].id) && (k > 0 ==> Delivered(cn, plan[k - 1].id));
    SkippedIds(cn, log, plan[k].id, i);
  }

  lemma LateBuffer(cn: Conn, id: nat, i: nat)
    requires Increasing(cn.received + cn.buf) && HasId(cn.received + cn.buf, id) && !HasId(cn.buf, id)
        && HasId(cn.buf, i)
    ensures id < i
  {
    SplitId(cn.received, cn.buf, id);
    var acc := cn.received + cn.buf;
    var e :| e in cn.received && e.id == id;
    var a :| 0 <= a < |cn.received| && cn.received[a] == e;
    var f :| f in cn.buf && f.id == i;
    var b :| 0 <= b < |cn.buf| && cn.buf[b] == f;
    assert acc[a] == e && acc[|cn.received| + b] == f;
  }

  // Streams only ever grow: what was written stays written, what was dropped stays dropped.
  ghost predicate Extends(a: Conn, b: Conn) {
    a.out <= b.out && a.dropped <= b.dropped && a.from == b.from && a.subAt == b.subAt
  }

  lemma StepExtends(s: State, a: Action)
    ensures |s.conns| <= |Apply(s, a).conns|
    ensures forall c :: 0 <= c < |s.conns| ==> Extends(s.conns[c], Apply(s, a).conns[c])
    ensures s.log <= Apply(s, a).log
  {
  }

  lemma EntriesKept(s: State, t: State)
    requires t.client.seen == s.client.seen && t.jumps == s.jumps && |s.log| <= |t.log|
    requires s.client.hasty ==> t.client.hasty
    requires forall i: nat :: Lost(s, i) ==> Lost(t, i)
    requires forall k :: 0 <= k < |s.client.seen| ==> EntryOk(s, k)
    ensures forall k :: 0 <= k < |t.client.seen| ==> EntryOk(t, k)
  {
    forall k | 0 <= k < |t.client.seen| ensures EntryOk(t, k) {
      assert EntryOk(s, k);
    }
  }

  /** A step of anyone but the bridge leaves everything the bridge relies on in place. */
  lemma OthersKeepBridge(s: State, t: State)
    requires BridgeInv(s) && t.client == s.client && t.jumps == s.jumps && s.log <= t.log
    requires |s.conns| <= |t.conns| && forall c :: 0 <= c < |s.conns| ==> Extends(s.conns[c], t.conns[c])
    ensures BridgeInv(t)
  {
    var cl := s.client;
    LostGrows(s, t);
    EntriesKept(s, t);
    if 0 <= cl.conn {
      var a, b := s.conns[cl.conn], t.conns[cl.conn];
      assert a.out[..cl.pos] == b.out[..cl.pos];
      assert cl.pos > 0 ==> a.out[0] == b.out[0];
    }
  }

  lemma LostGrows(s: State, t: State)
    requires s.client.used <= t.client.used && |s.conns| <= |t.conns|
    requires forall c :: 0 <= c < |s.conns| ==> Extends(s.conns[c], t.conns[c])
    ensures forall i: nat :: Lost(s, i) ==> Lost(t, i)
  {
    forall i: nat | Lost(s, i) ensures Lost(t, i) {
      var c :| 0 <= c < |s.conns| && c in s.client.used && i in s.conns[c].dropped;
      assert Extends(s.conns[c], t.conns[c]);
    }
  }

  lemma BridgeConnectKeeps(s: State)
    requires BridgeInv(s) && s.client.conn < 0
    ensures BridgeInv(Apply(s, BridgeConnect))
  {
    var t := Apply(s, BridgeConnect);
    LostGrows(s, t);
    EntriesKept(s, t);
    assert t.conns[|s.conns|].out[..0] == [];
  }

  /** The frame at `pos` continues the stream's plan where the frames before it left off. */
  lemma FramePosition(cn: Conn, log: seq<Event>, pos: nat, e: Event)
    requires OutInv(cn, log) && pos < |cn.out| && cn.out[pos] == Ev(e)
    ensures Events(cn.out[..pos + 1]) == Events(cn.out[..pos]) + [e]
    ensures Events(cn.out[..pos]) + [e] <= Planned(cn, log)
  {
    EventsPrefix(cn.out, pos + 1);
    assert cn.out[..pos + 1] == cn.out[..pos] + [Ev(e)];
    EventsAppend(cn.out[..pos], Ev(e));
  }

  /** Where the frames before `pos` left the client of stream `cn`. */
  ghost function Floor(cn: Conn, pos: nat): nat
    requires pos <= |cn.out|
  {
    LastOr(Events(cn.out[..pos]), cn.from)
  }

  /** The event at `pos` and what its stream had planned before it. */
  lemma PlannedAt(cn: Conn, log: seq<Event>, pos: nat, e: Event)
    requires ConnInv(cn, log) && Numbered(log) && pos < |cn.out| && cn.out[pos] == Ev(e)
    ensures var plan, evs := Planned(cn, log), Events(cn.out[..pos]);
      && |evs| < |plan| && plan[|evs|] == e && (evs != [] ==> plan[|evs| - 1] == evs[|evs| - 1])
      && Increasing(plan) && HasId(plan, e.id) && Delivered(cn, e.id) && FromLog(plan, log) && e in plan
      && (cn.phase.Replaying? || cn.phase == Live)
  {
    FramePosition(cn, log, pos, e);
    PlannedIds(cn, log);
    var plan, evs := Planned(cn, log), Events(cn.out[..pos]);
    var k := |evs|;
    assert plan[k] == (evs + [e])[k] == e;
    assert k > 0 ==> plan[k - 1] == (evs + [e])[k - 1] == evs[k - 1];
    assert e in plan;
    assert HasId(plan, e.id);
  }

  lemma PlannedNear(cn: Conn, log: seq<Event>, pos: nat, e: Event)
    requires ConnInv(cn, log) && Numbered(log) && pos < |cn.out| && cn.out[pos] == Ev(e)
    ensures var plan, evs := Planned(cn, log), Events(cn.out[..pos]);
      && |evs| < |plan| && plan[|evs|] == e && (evs != [] ==> plan[|evs| - 1] == evs[|evs| - 1])
      && (cn.phase.Replaying? || cn.phase == Live)
  {
    PlannedAt(cn, log, pos, e);
  }

  lemma FrameFromLog(cn: Conn, log: seq<Event>, pos: nat, e: Event)
    requires ConnInv(cn, log) && Numbered(log) && pos < |cn.out| && cn.out[pos] == Ev(e)
    ensures 1 <= e.id <= |log| && log[e.id - 1] == e
  {
    PlannedAt(cn, log, pos, e);
  }

  /** An event written past the replay was not dropped. */
  lemma FrameNotDropped(cn: Conn, log: seq<Event>, pos: nat, e: Event)
    requires ConnInv(cn, log) && Numbered(log) && pos < |cn.out| && cn.out[pos] == Ev(e)
    ensures cn.base < e.id ==> e.id !in cn.dropped
  {
    PlannedAt(cn, log, pos, e);
  }

  /** Why id `i` was passed over by the event at `pos`: dropped past the replay, or announced. */
  ghost predicate Excused(cn: Conn, pos: nat, i: nat)
    requires pos <= |cn.out|
  {
    (cn.base < i && i in cn.dropped) || (Events(cn.out[..pos]) == [] && cn.out != [] && cn.out[0].Reconcile?)
  }

  lemma StreamGapAt(cn: Conn, log: seq<Event>, pos: nat, e: Event, i: nat)
    requires ConnInv(cn, log) && Numbered(log) && cn.from <= cn.subAt
    requires pos < |cn.out| && cn.out[pos] == Ev(e) && Floor(cn, pos) < i < e.id
    ensures Excused(cn, pos, i)
  {
    var evs, plan := Events(cn.out[..pos]), Planned(cn, log);
    PlannedNear(cn, log, pos, e);
    if evs != [] {
      assert plan[|evs| - 1].id == Floor(cn, pos);
    }
    NeighbourGap(cn, log, |evs|, i);
  }

  lemma FloorBelow(cn: Conn, log: seq<Event>, pos: nat, e: Event)
    requires ConnInv(cn, log) && Numbered(log) && pos < |cn.out| && cn.out[pos] == Ev(e)
    ensures Floor(cn, pos) < e.id
  {
    PlannedAt(cn, log, pos, e);
  }

  lemma StreamGap(cn: Conn, log: seq<Event>, pos: nat, e: Event)
    requires ConnInv(cn, log) && Numbered(log) && cn.from <= cn.subAt
    requires pos < |cn.out| && cn.out[pos] == Ev(e)
    ensures Floor(cn, pos) < e.id <= |log|
    ensures forall i: nat :: Floor(cn, pos) < i < e.id ==> Excused(cn, pos, i)
  {
    FrameFromLog(cn, log, pos, e);
    FloorBelow(cn, log, pos, e);
    forall i: nat | Floor(cn, pos) < i < e.id ensures Excused(cn, pos, i) {
      StreamGapAt(cn, log, pos, e, i);
    }
  }

  lemma ReadGap(s: State, e: Event)
    requires Inv(s) && BridgeInv(s) && 0 <= s.client.conn
    requires s.client.pos < |s.conns[s.client.conn].out| && s.conns[s.client.conn].out[s.client.pos] == Ev(e)
    ensures Prev(s.client.seen, |s.client.seen|) < e.id <= |s.log|
    ensures forall i: nat :: Prev(s.client.seen, |s.client.seen|) < i < e.id ==>
      s.client.mark || Lost(s, i) || (s.jumps && s.client.hasty && i <= s.client.announced)
  {
    var cl := s.client;
    var cn := s.conns[cl.conn];
    assert ConnInv(cn, s.log);
    StreamGap(cn, s.log, cl.pos, e);
    forall i: nat | Floor(cn, cl.pos) < i < e.id ensures cl.mark || Lost(s, i) {
      assert Excused(cn, cl.pos, i);
      assert i in cn.dropped ==> Lost(s, i);
      assert cl.pos == 0 ==> !cn.out[0].Reconcile?;
    }
  }

  /** Reading one event frame appends one entry that is in order and accounted for. */
  lemma ReadEventKeeps(s: State, e: Event)
    requires Inv(s) && BridgeInv(s) && 0 <= s.client.conn
    requires s.client.pos < |s.conns[s.client.conn].out| && s.conns[s.client.conn].out[s.client.pos] == Ev(e)
    ensures BridgeInv(Apply(s, BridgeRead))
  {
    var cl := s.client;
    var t := Apply(s, BridgeRead);
    ReadGap(s, e);
    SessionTakes(s.conns[cl.conn], s.log, cl, e, s.jumps) by {
      assert ConnInv(s.conns[cl.conn], s.log);
    }
    LostGrows(s, t);
    EntryAdded(s, t);
  }

  lemma SessionTakes(cn: Conn, log: seq<Event>, cl: Client, e: Event, jumps: bool)
    requires OutInv(cn, log) && Session(cn, cl, jumps) && cl.pos < |cn.out| && cn.out[cl.pos] == Ev(e)
    ensures Session(cn, DoRead(cl, Ev(e), jumps), jumps)
  {
    FramePosition(cn, log, cl.pos, e);
  }

  lemma EntryAdded(s: State, t: State)
    requires |t.client.seen| == |s.client.seen| + 1 && t.client.seen[..|s.client.seen|] == s.client.seen
    requires t.jumps == s.jumps && |s.log| <= |t.log| && (s.client.hasty ==> t.client.hasty)
    requires forall i: nat :: Lost(s, i) ==> Lost(t, i)
    requires forall k :: 0 <= k < |s.client.seen| ==> EntryOk(s, k)
    requires EntryOk(t, |s.client.seen|)
    ensures forall k :: 0 <= k < |t.client.seen| ==> EntryOk(t, k)
  {
    forall k | 0 <= k < |s.client.seen| ensures EntryOk(t, k) {
      assert EntryOk(s, k);
      assert t.client.seen[k] == s.client.seen[k];
      assert Prev(t.client.seen, k) == Prev(s.client.seen, k);
    }
  }

  lemma ReadOtherKeeps(s: State)
    requires Inv(s) && BridgeInv(s) && 0 <= s.client.conn
    requires s.client.pos < |s.conns[s.client.conn].out| && !s.conns[s.client.conn].out[s.client.pos].Ev?
    ensures BridgeInv(Apply(s, BridgeRead))
  {
    var t := Apply(s, BridgeRead);
    var cn := s.conns[s.client.conn];
    assert HeadInv(cn, s.log) && OutInv(cn, s.log) by {
      assert ConnInv(cn, s.log);
    }
    SessionReads(cn, s.client, s.jumps);
    LostGrows(s, t);
    EntriesKept(s, t);
  }

  lemma SessionReads(cn: Conn, cl: Client, jumps: bool)
    requires Session(cn, cl, jumps) && cl.pos < |cn.out| && !cn.out[cl.pos].Ev?
    requires cn.out[cl.pos].Reconcile? ==> cl.pos == 0
    ensures Session(cn, DoRead(cl, cn.out[cl.pos], jumps), jumps)
  {
    var pos := cl.pos;
    assert cn.out[..pos + 1] == cn.out[..pos] + [cn.out[pos]];
    EventsAppend(cn.out[..pos], cn.out[pos]);
    assert Events(cn.out[..pos + 1]) == Events(cn.out[..pos]);
  }

  lemma BridgeStepKeeps(s: State, a: Action)
    requires Inv(s) && BridgeInv(s)
    ensures BridgeInv(Apply(s, a))
  {
    StepExtends(s, a);
    match a
    case BridgeConnect =>
      if s.client.conn < 0 {
        BridgeConnectKeeps(s);
      }
    case BridgeRead =>
      if 0 <= s.client.conn && s.client.pos < |s.conns[s.client.conn].out| {
        var f := s.conns[s.client.conn].out[s.client.pos];
        if f.Ev? {
          ReadEventKeeps(s, f.ev);
        } else {
          ReadOtherKeeps(s);
        }
      }
    case BridgeLose =>
      var t := Apply(s, a);
      LostGrows(s, t);
      EntriesKept(s, t);
    case _ => OthersKeepBridge(s, Apply(s, a));
  }

  /** Over any number of connections, crashes and interleaved publishing, the ids the bridge
      takes strictly increase, and every id it skips was dropped by a full buffer, lies in a
      gap a reconcile frame announced, or lies below the id such a frame had moved the cursor
      to before a connection was given up half way through its replay. */
  lemma {:induction false} BridgeNeverSkipsSilently(jumps: bool, acts: seq<Action>)
    ensures BridgeInv(Exec(jumps, acts))
  {
    if acts != [] {
      var before := acts[..|acts| - 1];
      BridgeNeverSkipsSilently(jumps, before);
      Reachable(jumps, before);
      BridgeStepKeeps(Exec(jumps, before), acts[|acts| - 1]);
    }
  }

  /** The bridge is about to take event `e`. */
  predicate Taking(s: State, e: Event) {
    && 0 <= s.client.conn < |s.conns| && s.client.pos < |s.conns[s.client.conn].out|
    && s.conns[s.client.conn].out[s.client.pos] == Ev(e)
  }

  /** That event would be the first on its stream, unannounced, and the stream was opened from
      a cursor other than the last id taken. */
  predicate Jumped(s: State) {
    && 0 <= s.client.conn < |s.conns| && s.client.pos < |s.conns[s.client.conn].out|
    && var cn := s.conns[s.client.conn];
    && cn.out[s.client.pos].Ev? && !s.client.mark && Events(cn.out[..s.client.pos]) == []
    && cn.from != Prev(s.client.seen, |s.client.seen|)
  }

  /** Its stream dropped the id after the last one taken, past its replay. */
  predicate NextDropped(s: State) {
    && 0 <= s.client.conn < |s.conns|
    && var cn, next := s.conns[s.client.conn], Prev(s.client.seen, |s.client.seen|) + 1;
    cn.base < next && next in cn.dropped
  }

  /** The bridge is about to take an event and pass one over with no notice. */
  predicate Skips(s: State) {
    && 0 <= s.client.conn < |s.conns| && s.client.pos < |s.conns[s.client.conn].out|
    && s.conns[s.client.conn].out[s.client.pos].Ev? && !s.client.mark && (Jumped(s) || NextDropped(s))
  }

  /** An unannounced event follows the last one taken if and only if the stream it is on had
      already carried one or was opened from the last id taken, and did not drop the next id. */
  lemma TakenNextIff(s: State, e: Event)
    requires Inv(s) && BridgeInv(s) && Taking(s, e) && !s.client.mark
    ensures e.id == Prev(s.client.seen, |s.client.seen|) + 1 <==> !Skips(s)
  {
    var cl := s.client;
    var cn := s.conns[cl.conn];
    assert ConnInv(cn, s.log) && Session(cn, cl, s.jumps);
    StreamGap(cn, s.log, cl.pos, e);
    FrameNotDropped(cn, s.log, cl.pos, e);
    var evs, floor := Events(cn.out[..cl.pos]), Floor(cn, cl.pos);
    assert cl.pos == 0 ==> !cn.out[0].Reconcile?;
    assert !(evs == [] && cn.out[0].Reconcile?);
    if floor + 1 < e.id {
      assert Excused(cn, cl.pos, floor + 1);
    }
  }

  /** Every id taken follows the one before, or a reconcile frame announced the gap. */
  ghost predicate Gapless(seen: seq<Seen>) {
    forall k :: 0 <= k < |seen| ==> seen[k].marked || seen[k].id == Prev(seen, k) + 1
  }

  lemma GaplessSnoc(seen: seq<Seen>, x: Seen)
    ensures Gapless(seen + [x]) <==> Gapless(seen) && (x.marked || x.id == Prev(seen, |seen|) + 1)
  {
    var all, n := seen + [x], |seen|;
    assert forall k :: 0 <= k < n ==> all[k] == seen[k];
    assert forall k :: 0 <= k <= n ==> Prev(all, k) == Prev(seen, k);
    assert all[n] == x;
    if Gapless(all) {
      forall k | 0 <= k < n ensures seen[k].marked || seen[k].id == Prev(seen, k) + 1 {
        assert all[k].marked || all[k].id == Prev(all, k) + 1;
      }
    }
  }

  /** No step of the run passed an event over with no notice. */
  ghost predicate NeverSkips(jumps: bool, acts: seq<Action>) {
    acts != [] ==>
      && NeverSkips(jumps, acts[..|acts| - 1])
      && !(acts[|acts| - 1] == BridgeRead && Skips(Exec(jumps, acts[..|acts| - 1])))
  }

  lemma TakenIsSeen(s: State, e: Event)
    requires Taking(s, e)
    ensures Apply(s, BridgeRead).client.seen == s.client.seen + [Seen(e.id, s.client.mark, s.client.announced)]
  {
  }

  lemma SkipsOrNext(s: State, e: Event)
    requires Inv(s) && BridgeInv(s) && Taking(s, e)
    ensures s.client.mark || e.id == Prev(s.client.seen, |s.client.seen|) + 1 <==> !Skips(s)
  {
    if !s.client.mark {
      TakenNextIff(s, e);
    }
  }

  lemma TakingKeepsGapless(s: State, e: Event)
    requires Inv(s) && BridgeInv(s) && Taking(s, e)
    ensures Gapless(Apply(s, BridgeRead).client.seen) <==> Gapless(s.client.seen) && !Skips(s)
  {
    var seen, x := s.client.seen, Seen(e.id, s.client.mark, s.client.announced);
    assert Apply(s, BridgeRead).client.seen == seen + [x] by {
      TakenIsSeen(s, e);
    }
    assert x.marked || x.id == Prev(seen, |seen|) + 1 <==> !Skips(s) by {
      SkipsOrNext(s, e);
    }
    GaplessSnoc(seen, x);
  }

  /** The exact condition on the bridge, in every run: what it takes over all its connections has
      no unannounced gap if and only if it never took an event, with no reconcile frame before
      it, first on a stream opened from elsewhere than the last id taken, or next on a stream
      that had dropped the id in between. */
  lemma {:induction false} GaplessIff(jumps: bool, acts: seq<Action>)
    ensures Gapless(Exec(jumps, acts).client.seen) <==> NeverSkips(jumps, acts)
  {
    if acts != [] {
      var before, a := acts[..|acts| - 1], acts[|acts| - 1];
      GaplessIff(jumps, before);
      Reachable(jumps, before);
      BridgeNeverSkipsSilently(jumps, before);
      GaplessStep(Exec(jumps, before), a);
    }
  }

  lemma GaplessStep(s: State, a: Action)
    requires Inv(s) && BridgeInv(s)
    ensures Gapless(Apply(s, a).client.seen) <==> Gapless(s.client.seen) && !(a == BridgeRead && Skips(s))
  {
    if a == BridgeRead && 0 <= s.client.conn < |s.conns| && s.client.pos < |s.conns[s.client.conn].out| {
      var f := s.conns[s.client.conn].out[s.client.pos];
      if f.Ev? {
        TakingKeepsGapless(s, f.ev);
      }
    } else {
      assert Apply(s, a).client.seen == s.client.seen;
    }
  }

  lemma {:induction false} Then(jumps: bool, acts: seq<Action>, s: State, a: Action)
    returns (acts': seq<Action>, t: State)
    requires Exec(jumps, acts) == s
    ensures t == Apply(s, a) && Exec(jumps, acts') == t
  {
    acts', t := acts + [a], Apply(s, a);
    assert acts'[..|acts|] == acts;
  }

  /** A stream opened from `from` when the hub has `n` events, replayed as far as `out` says. */
  function Opened(from: nat, n: nat, phase: Phase, sent: nat, out: seq<Frame>): Conn {
    Conn(from, phase, sent, out, [], true, false, n, n, n, [], {})
  }

  predicate IsLocal(a: Action) {
    a.Snapshot? || a.Greet? || a.Replay? || a.Receive? || a.KeepAlive? || a.Unsubscribe? || a.CloseChan?
  }

  /** One step of the newest stream. */
  lemma NewestSteps(acts: seq<Action>, s: State, rest: seq<Conn>, cn: Conn, a: Action)
    returns (acts': seq<Action>, t: State)
    requires Exec(true, acts) == s && s.conns == rest + [cn] && IsLocal(a) && a.c == |rest|
    ensures Exec(true, acts') == t && t == s.(conns := rest + [Local(cn, a, s.log)])
  {
    acts', t := Then(true, acts, s, a);
    NewestApplies(s, rest, cn, a);
  }

  lemma NewestApplies(s: State, rest: seq<Conn>, cn: Conn, a: Action)
    requires s.conns == rest + [cn] && IsLocal(a) && a.c == |rest|
    ensures Apply(s, a) == s.(conns := rest + [Local(cn, a, s.log)])
  {
    assert s.conns[|rest|] == cn;
    assert s.conns[|rest| := Local(cn, a, s.log)] == rest + [Local(cn, a, s.log)];
  }

  lemma OpenStream(acts: seq<Action>, s: State) returns (acts': seq<Action>, t: State)
    requires Exec(true, acts) == s && s.client.conn == -1
    ensures Exec(true, acts') == t && t.jumps == s.jumps && t.log == s.log
    ensures t.client == s.client.(conn := |s.conns|, used := s.client.used + {|s.conns|}, pos := 0)
    ensures var n, from := |s.log|, s.client.cursor;
      t.conns == s.conns + [Opened(from, n, Replaying(Missed(s.log, from)), from,
                             if Complete(n, from) then [Hello(n)] else [Reconcile(n), Hello(n)])]
  {
    acts', t := Then(true, acts, s, BridgeConnect);
    acts', t := GreetNewest(acts', t, s.conns, s.client.cursor);
  }

  /** The newest stream reads the ring and greets its client. */
  lemma GreetNewest(acts: seq<Action>, s: State, rest: seq<Conn>, from: nat) returns (acts': seq<Action>, t: State)
    requires Exec(true, acts) == s && s.conns == rest + [NewConn(from, |s.log|)]
    ensures Exec(true, acts') == t
    ensures var n := |s.log|;
      t == s.(conns := rest + [Opened(from, n, Replaying(Missed(s.log, from)), from,
                                 if Complete(n, from) then [Hello(n)] else [Reconcile(n), Hello(n)])])
  {
    var c, n := |rest|, |s.log|;
    var greeting := Opened(from, n, Greeting(Missed(s.log, from), Complete(n, from)), from, []);
    acts', t := NewestSteps(acts, s, rest, NewConn(from, n), Snapshot(c));
    acts', t := NewestSteps(acts', t, rest, greeting, Greet(c));
    assert [] + [Reconcile(n)] + [Hello(n)] == [Reconcile(n), Hello(n)];
    assert [] + [] + [Hello(n)] == [Hello(n)];
  }

  lemma ReadFrame(acts: seq<Action>, s: State, f: Frame) returns (acts': seq<Action>, t: State)
    requires Exec(true, acts) == s && s.jumps && 0 <= s.client.conn < |s.conns|
    requires s.client.pos < |s.conns[s.client.conn].out| && s.conns[s.client.conn].out[s.client.pos] == f
    ensures Exec(true, acts') == t && t == s.(client := DoRead(s.client, f, true))
  {
    acts', t := Then(true, acts, s, BridgeRead);
  }

  /** The bridge takes the reconcile frame and one event of the replay, then loses the connection. */
  lemma HastyFirst(acts: seq<Action>, s: State) returns (acts': seq<Action>, t: State)
    requires Exec(true, acts) == s && s == Init(true).(log := s.log) && Numbered(s.log) && |s.log| == RING_SIZE + 1
    ensures Exec(true, acts') == t && t.jumps && t.log == s.log && |t.conns| == 1 && t.conns[0].dropped == {}
        && t.conns[0].buf == []
    ensures t.client == Client(-1, {0}, 0, RING_SIZE + 1, [Seen(2, true, RING_SIZE + 1)], false, RING_SIZE + 1, true)
  {
    var n := RING_SIZE + 1;
    acts', t := OpenStream(acts, s);
    assert Missed(s.log, 0) == s.log[1..];
    acts', t := FirstReplayed(acts', t, n, s.log);
    acts', t := ReadThree(acts', t, n, s.log[1]);
    acts', t := Then(true, acts', t, BridgeLose);
  }

  lemma FirstReplayed(acts: seq<Action>, s: State, n: nat, log: seq<Event>) returns (acts': seq<Action>, t: State)
    requires Exec(true, acts) == s && |log| > 1
    requires s.conns == [] + [Opened(0, n, Replaying(log[1..]), 0, [Reconcile(n), Hello(n)])]
    ensures Exec(true, acts') == t && t == s.(conns := t.conns) && |t.conns| == 1
    ensures t.conns[0].out == [Reconcile(n), Hello(n), Ev(log[1])] && t.conns[0].dropped == {} && t.conns[0].buf == []
  {
    var replaying := Opened(0, n, Replaying(log[1..]), 0, [Reconcile(n), Hello(n)]);
    acts', t := NewestSteps(acts, s, [], replaying, Replay(0));
    assert [Reconcile(n), Hello(n)] + [Ev(log[1])] == [Reconcile(n), Hello(n), Ev(log[1])];
  }

  lemma ReadThree(acts: seq<Action>, s: State, n: nat, e: Event) returns (acts': seq<Action>, t: State)
    requires Exec(true, acts) == s && s.jumps && |s.conns| == 1 && e.id == 2 < n
    requires s.conns[0].out == [Reconcile(n), Hello(n), Ev(e)] && s.client == Client(0, {0}, 0, 0, [], false, 0, false)
    ensures Exec(true, acts') == t && t == s.(client := Client(0, {0}, 3, n, [Seen(2, true, n)], false, n, false))
  {
    acts', t := ReadFrame(acts, s, Reconcile(n));
    acts', t := ReadFrame(acts', t, Hello(n));
    acts', t := ReadFrame(acts', t, Ev(e));
  }

  /** It reconnects from the cursor the reconcile frame gave it and takes the next new event. */
  lemma HastySecond(acts: seq<Action>, s: State) returns (acts': seq<Action>, t: State)
    requires Exec(true, acts) == s && s.jumps && |s.log| == RING_SIZE + 1 && |s.conns| == 1
        && s.conns[0].dropped == {} && s.conns[0].buf == []
    requires s.client == Client(-1, {0}, 0, RING_SIZE + 1, [Seen(2, true, RING_SIZE + 1)], false, RING_SIZE + 1, true)
    ensures Exec(true, acts') == t && forall c :: 0 <= c < |t.conns| ==> t.conns[c].dropped == {}
    ensures t.client.seen == [Seen(2, true, RING_SIZE + 1), Seen(RING_SIZE + 2, false, RING_SIZE + 1)]
  {
    var n, ev := RING_SIZE + 1, Event(RING_SIZE + 2, "disc", 0, "");
    var first, cl := s.conns[0], s.client.(conn := 1, used := {0, 1});
    var next := Opened(n, n, Live, n, [Hello(n)]);
    acts', t := OpenStream(acts, s);
    assert t.conns == [first] + [Opened(n, n, Replaying([]), n, [Hello(n)])] && t.client == cl;
    acts', t := NewestSteps(acts', t, [first], Opened(n, n, Replaying([]), n, [Hello(n)]), Replay(1));
    acts', t := HastyPublish(acts', t, first, next, cl);
    acts', t := NewestSteps(acts', t, [OfferTo(first, ev)], next.(buf := [ev], offered := n + 1), Receive(1));
    assert t.conns[1].out == [Hello(n), Ev(ev)];
    acts', t := ReadTwo(acts', t, n, ev);
  }

  lemma ReadTwo(acts: seq<Action>, s: State, n: nat, e: Event) returns (acts': seq<Action>, t: State)
    requires Exec(true, acts) == s && s.jumps && |s.conns| == 2 && s.client.conn == 1 && s.client.pos == 0
    requires s.conns[1].out == [Hello(n), Ev(e)]
    ensures Exec(true, acts') == t && t.conns == s.conns
    ensures t.client.seen == s.client.seen + [Seen(e.id, s.client.mark, s.client.announced)]
  {
    acts', t := ReadFrame(acts, s, Hello(n));
    acts', t := ReadFrame(acts', t, Ev(e));
  }

  lemma HastyPublish(acts: seq<Action>, s: State, first: Conn, next: Conn, cl: Client)
    returns (acts': seq<Action>, t: State)
    requires Exec(true, acts) == s && s.jumps && s.conns == [first] + [next] && s.client == cl
        && |s.log| == RING_SIZE + 1
    requires next.subscribed && next.buf == []
    ensures Exec(true, acts') == t && t.jumps && t.client == cl
    ensures var ev := Event(RING_SIZE + 2, "disc", 0, "");
      t.conns == [OfferTo(first, ev)] + [next.(buf := [ev], offered := ev.id)]
  {
    acts', t := Then(true, acts, s, Publish("disc", 0, ""));
    assert s.conns[0] == first && s.conns[1] == next;
    assert |t.conns| == 2 && t.conns[0] == OfferTo(first, Event(RING_SIZE + 2, "disc", 0, ""));
    assert [] + [Event(RING_SIZE + 2, "disc", 0, "")] == [Event(RING_SIZE + 2, "disc", 0, "")];
  }

  /** The bridge as written moves its cursor to the reconcile frame's last_event_id.  Losing the
      connection one event into the replay then skips thousands of events the ring still
      holds, with nothing dropped and no reconcile frame in between. */
  lemma HastyBridgeSkipsHeldEvents() returns (acts: seq<Action>)
    ensures var s := Exec(true, acts);
      && |s.client.seen| == 2 && s.client.seen[0].id == 2
      && s.client.seen[1].id == RING_SIZE + 2 && !s.client.seen[1].marked
      && forall c :: 0 <= c < |s.conns| ==> s.conns[c].dropped == {}
  {
    var s: State;
    acts, s := Filled(RING_SIZE + 1);
    Reachable(true, acts);
    acts, s := HastyFirst(acts, s);
    acts, s := HastySecond(acts, s);
  }

  lemma {:induction false} Filled(n: nat) returns (acts: seq<Action>, s: State)
    ensures Exec(true, acts) == s && s == Init(true).(log := s.log) && |s.log| == n
  {
    if n == 0 {
      acts, s := [], Init(true);
    } else {
      acts, s := Filled(n - 1);
      acts, s := Then(true, acts, s, Publish("disc", 0, ""));
      assert s.conns == [];
    }
  }

  /** A client that resumes from an id the hub has not handed out, say after the daemon was
      restarted, is told nothing is missing and then not given the next event either. */
  lemma ResumeAheadRun(from: nat) returns (acts: seq<Action>)
    requires from >= 2
    ensures var s := Exec(true, acts);
      && |s.conns| == 1 && |s.log| == 2 && s.conns[0].from == from && s.conns[0].phase == Live
      && s.conns[0].dropped == {} && s.conns[0].buf == [] && s.conns[0].offered == 2
      && s.conns[0].out == [Hello(1)]
  {
    var s: State;
    acts, s := Filled(1);
    acts, s := AheadOf(acts, s, from);
    acts, s := SilentPublish(acts, s, from);
  }

  lemma AheadOf(acts: seq<Action>, s: State, from: nat) returns (acts': seq<Action>, t: State)
    requires from >= 2 && Exec(true, acts) == s && s.conns == [] && |s.log| == 1
    ensures Exec(true, acts') == t && t.log == s.log && t.conns == [] + [Opened(from, 1, Live, from, [Hello(1)])]
  {
    acts', t := Then(true, acts, s, Connect(from));
    acts', t := GreetNewest(acts', t, [], from);
    acts', t := NewestSteps(acts', t, [], Opened(from, 1, Replaying([]), from, [Hello(1)]), Replay(0));
  }

  lemma SilentPublish(acts: seq<Action>, s: State, from: nat) returns (acts': seq<Action>, t: State)
    requires from >= 2 && Exec(true, acts) == s && |s.log| == 1
    requires s.conns == [] + [Opened(from, 1, Live, from, [Hello(1)])]
    ensures Exec(true, acts') == t && |t.log| == 2
    ensures t.conns == [Opened(from, 1, Live, from, [Hello(1)]).(offered := 2, received := [Event(2, "disc", 0, "")])]
  {
    var live, ev := Opened(from, 1, Live, from, [Hello(1)]), Event(2, "disc", 0, "");
    var offered := live.(buf := [ev], offered := 2);
    acts', t := Then(true, acts, s, Publish("disc", 0, ""));
    OfferedTo(live, ev);
    assert s.conns[0] == live && |s.conns| == 1;
    assert t.conns[0] == offered && |t.conns| == 1;
    acts', t := NewestSteps(acts', t, [], offered, Receive(0));
    assert [] + [ev] == [ev] && [ev][1..] == [];
  }

  lemma OfferedTo(cn: Conn, ev: Event)
    requires cn.subscribed && cn.buf == []
    ensures OfferTo(cn, ev) == cn.(buf := [ev], offered := ev.id)
  {
    assert [] + [ev] == [ev];
  }

  // ---------- a released stream is over ----------

  /** `b` has written, received and been offered what `a` had, and will be no more. */
  ghost predicate Over(a: Conn, b: Conn) {
    && !b.subscribed && b.out == a.out && b.buf == a.buf && b.received == a.received && b.dropped == a.dropped
    && (a.closed ==> b.closed)
  }

  lemma StepLeavesOver(s: State, a: Action, c: nat, was: Conn)
    requires c < |s.conns| && Over(was, s.conns[c])
    ensures var t := Apply(s, a); c < |t.conns| && Over(was, t.conns[c])
  {
  }

  /** Once a handler has released its subscription, nothing is ever offered to its stream or written
      on it again, whatever is published and whoever connects. */
  lemma {:induction false} ReleasedIsSilent(jumps: bool, acts: seq<Action>, c: nat, more: seq<Action>)
    requires c < |Exec(jumps, acts).conns|
    ensures var s, t := Exec(jumps, acts), Exec(jumps, acts + [Unsubscribe(c)] + more);
      c < |t.conns| && Over(s.conns[c], t.conns[c])
    decreases |more|
  {
    var all := acts + [Unsubscribe(c)] + more;
    if more == [] {
      assert all[..|all| - 1] == acts;
    } else {
      var front, a := more[..|more| - 1], more[|more| - 1];
      ReleasedIsSilent(jumps, acts, c, front);
      assert all[..|all| - 1] == acts + [Unsubscribe(c)] + front;
      StepLeavesOver(Exec(jumps, acts + [Unsubscribe(c)] + front), a, c, Exec(jumps, acts).conns[c]);
    }
  }

  /** And then its channel is closed, but never before. */
  lemma ClosedIff(s: State, c: nat)
    requires c < |s.conns| && !s.conns[c].closed
    ensures Apply(s, CloseChan(c)).conns[c].closed <==> !s.conns[c].subscribed
  {
  }
}
