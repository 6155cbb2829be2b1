/** Publishing against releasing, step by step, by any number of goroutines.

    Publishing holds the hub's lock from the first send to the last.  Releasing runs under
    a sync.Once: it takes the subscriber out under the lock and closes the channel after
    giving the lock up.  `underLock == false` is the version that copies the subscribers,
    unlocks and then sends. */
module Release {
  import opened Hub

  /** What a goroutine is in the middle of. */
  datatype Task = Idle | Sending(todo: set<ChanId>) | Releasing(c: ChanId) | Closing(c: ChanId)

  /** `lock` is the publisher holding the hub's lock, or none; `once` the channels whose
      release has begun.  `panicked` records a send on, or a close of, a closed channel. */
  datatype State = State(
    underLock: bool, lock: Lock, made: nat, subs: set<ChanId>, once: set<ChanId>, closed: set<ChanId>,
    waiting: map<ChanId, nat>, tasks: map<nat, Task>, panicked: bool)

  datatype Lock = Free | Held(owner: nat)

  datatype Action =
    | Subscribe(g: nat)
    | BeginPublish(g: nat)
    | Send(g: nat, to: ChanId)
    | EndPublish(g: nat)
    | BeginRelease(g: nat, of: ChanId)
    | Remove(g: nat)
    | Close(g: nat)
    | Receive(from: ChanId)

  function Init(underLock: bool): State {
    State(underLock, Free, 0, {}, {}, {}, map[], map[], false)
  }

  function Doing(s: State, g: nat): Task {
    if g in s.tasks then s.tasks[g] else Idle
  }

  function Apply(s: State, a: Action): State {
    match a
    case Subscribe(g) =>
      if Doing(s, g) != Idle || s.lock.Held? then s
      else s.(made := s.made + 1, subs := s.subs + {s.made}, waiting := s.waiting[s.made := 0])
    case BeginPublish(g) =>
      if Doing(s, g) != Idle || s.lock.Held? then s
      else s.(lock := if s.underLock then Held(g) else Free, tasks := s.tasks[g := Sending(s.subs)])
    case Send(g, c) =>
      if !Doing(s, g).Sending? || c !in Doing(s, g).todo then s
      else s.(tasks := s.tasks[g := Sending(Doing(s, g).todo - {c})],
              panicked := s.panicked || c in s.closed,
              waiting := if c !in s.waiting || s.waiting[c] >= BUFFER_SIZE then s.waiting
                         else s.waiting[c := s.waiting[c] + 1])
    case EndPublish(g) =>
      if Doing(s, g) != Sending({}) then s
      else s.(lock := if s.underLock then Free else s.lock, tasks := s.tasks[g := Idle])
    case BeginRelease(g, c) =>
      if Doing(s, g) != Idle || c >= s.made || c in s.once then s
      else s.(once := s.once + {c}, tasks := s.tasks[g := Releasing(c)])
    case Remove(g) =>
      if !Doing(s, g).Releasing? || s.lock.Held? then s
      else s.(subs := s.subs - {Doing(s, g).c}, tasks := s.tasks[g := Closing(Doing(s, g).c)])
    case Close(g) =>
      if !Doing(s, g).Closing? then s
      else s.(panicked := s.panicked || Doing(s, g).c in s.closed, closed := s.closed + {Doing(s, g).c},
              tasks := s.tasks[g := Idle])
    case Receive(c) =>
      if c in s.waiting && s.waiting[c] > 0 then s.(waiting := s.waiting[c := s.waiting[c] - 1]) else s
  }

  function Exec(underLock: bool, acts: seq<Action>): State {
    if acts == [] then Init(underLock) else Apply(Exec(underLock, acts[..|acts| - 1]), acts[|acts| - 1])
  }

  // ---------- what every step keeps ----------

  predicate Ends(t: Task) { t.Releasing? || t.Closing? }

  /** One goroutine at most is releasing a channel, and it has not closed it yet. */
  ghost predicate OneCloser(s: State) {
    && (forall g :: Ends(Doing(s, g)) ==> Doing(s, g).c in s.once && Doing(s, g).c !in s.closed)
    && (forall g, h :: Ends(Doing(s, g)) && Ends(Doing(s, h)) && Doing(s, g).c == Doing(s, h).c ==> g == h)
    && (forall g :: Doing(s, g).Closing? ==> Doing(s, g).c !in s.subs)
    && s.subs !! s.closed && s.closed <= s.once
    && (forall c :: c in s.subs || c in s.once ==> c < s.made)
  }

  /** A publisher sends only while it holds the lock, and only to channels still subscribed. */
  ghost predicate SendsLocked(s: State) {
    && (forall g :: Doing(s, g).Sending? <==> s.lock == Held(g))
    && (forall g :: Doing(s, g).Sending? ==> Doing(s, g).todo <= s.subs)
  }

  ghost predicate Safe(s: State) {
    s.underLock && !s.panicked && OneCloser(s) && SendsLocked(s)
    && (forall c :: c in s.waiting ==> s.waiting[c] <= BUFFER_SIZE)
  }

  lemma StepKeepsCloser(s: State, a: Action)
    requires Safe(s)
    ensures OneCloser(Apply(s, a))
  {
    var t := Apply(s, a);
    assert forall h :: a.Receive? || h != a.g ==> Doing(t, h) == Doing(s, h);
  }

  lemma StepKeepsLock(s: State, a: Action)
    requires Safe(s)
    ensures SendsLocked(Apply(s, a))
  {
    var t := Apply(s, a);
    assert forall h :: a.Receive? || h != a.g ==> Doing(t, h) == Doing(s, h);
  }

  lemma StepIsSafe(s: State, a: Action)
    requires Safe(s)
    ensures Safe(Apply(s, a))
  {
    StepKeepsCloser(s, a);
    StepKeepsLock(s, a);
  }

  /** In every interleaving no send reaches a closed channel and no channel is closed twice,
      and no buffer ever holds more than its size. */
  lemma {:induction false} NoSendOnClosed(acts: seq<Action>)
    ensures Safe(Exec(true, acts))
  {
    if acts != [] {
      NoSendOnClosed(acts[..|acts| - 1]);
      StepIsSafe(Exec(true, acts[..|acts| - 1]), acts[|acts| - 1]);
    }
  }

  // ---------- publishing never waits ----------

  function Steps(s: State, acts: seq<Action>): State
    decreases |acts|
  {
    if acts == [] then s else Steps(Apply(s, acts[0]), acts[1..])
  }

  /** From any reachable point of a publish, the publisher's own steps alone finish it and
      free the lock: one step per channel left and one more, however full the buffers are
      and whatever every other goroutine is doing.  Each channel left then has one event more
      waiting, if it had room. */
  lemma {:induction false} PublishFinishesAlone(s: State, g: nat) returns (acts: seq<Action>)
    requires Safe(s) && Doing(s, g).Sending?
    ensures |acts| == |Doing(s, g).todo| + 1
    ensures forall a :: a in acts ==> !a.Receive? && a.g == g
    ensures var t := Steps(s, acts);
      && t.lock == Free && Doing(t, g) == Idle && !t.panicked && t.waiting.Keys == s.waiting.Keys
      && forall c :: c in s.waiting ==>
           t.waiting[c] == s.waiting[c] + if c in Doing(s, g).todo && s.waiting[c] < BUFFER_SIZE then 1 else 0
    decreases |Doing(s, g).todo|
  {
    var todo := Doing(s, g).todo;
    if todo == {} {
      acts := [EndPublish(g)];
      assert Steps(s, acts) == Steps(Apply(s, acts[0]), []);
    } else {
      var c :| c in todo;
      StepIsSafe(s, Send(g, c));
      var rest := PublishFinishesAlone(Apply(s, Send(g, c)), g);
      acts := [Send(g, c)] + rest;
      assert acts[1..] == rest;
    }
  }

  /** Copying the subscribers and sending after the lock is given up panics. */
  lemma SendingUnlockedPanics() returns (acts: seq<Action>)
    ensures Exec(false, acts).panicked
  {
    acts := [];
    var s := Init(false);
    acts, s := Then(acts, s, Subscribe(0));
    acts, s := Then(acts, s, BeginPublish(0));
    acts, s := Then(acts, s, BeginRelease(1, 0));
    acts, s := Then(acts, s, Remove(1));
    acts, s := Then(acts, s, Close(1));
    acts, s := Then(acts, s, Send(0, 0));
  }

  lemma Then(acts: seq<Action>, s: State, a: Action) returns (acts': seq<Action>, t: State)
    requires Exec(false, acts) == s
    ensures t == Apply(s, a) && Exec(false, acts') == t
  {
    acts', t := acts + [a], Apply(s, a);
    assert acts'[..|acts|] == acts;
  }
}
