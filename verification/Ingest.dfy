/** Daemon events into catalog rows, and the bridge that applies them.

    One event is several saves (the disc row, then one row per title) and the bridge may
    die between any two of them, or after the last and before the cursor moves.  People
    judge discs and titles at the same time. */
module Ingest {
  import opened Text

  datatype Title = Title(duration: int, chapters: int, audio: int, subtitles: int,
    sourceFile: Option<string>, ripPath: Option<string>, role: string)

  datatype Disc = Disc(volumeLabel: Option<string>, discType: Option<string>, readPath: Option<string>,
    blocked: bool, blockedReason: Option<string>, discName: Option<string>, ripDir: Option<string>,
    totalSeconds: int, status: string, rippedAt: Option<int>, titles: map<int, Title>)

  /** Rows keyed by fingerprint; a disc's titles by index. */
  type Catalog = map<string, Disc>

  datatype TitleData = TitleData(index: int, duration: int, chapters: int, audio: int, subtitles: int,
    sourceFile: Option<string>)

  datatype Event = Event(kind: string, fingerprint: Option<string>, volumeLabel: Option<string>,
    discType: Option<string>, readPath: Option<string>, blocked: bool, blockedReason: Option<string>,
    discName: Option<string>, ripDir: Option<string>,
    stage: string, titles: seq<TitleData>)

  /** Rails calls a string of white space blank. */
  predicate Present(o: Option<string>) {
    o.Some? && !Blank(o.value)
  }

  function Presence(o: Option<string>): Option<string> {
    if Present(o) then o else None
  }

  predicate IsDisc(ev: Event) {
    ev.kind == "disc" && Present(ev.fingerprint)
  }

  function TotalSeconds(ts: seq<TitleData>): int {
    if ts == [] then 0 else TotalSeconds(ts[..|ts| - 1]) + ts[|ts| - 1].duration
  }

  function Fresh(): Disc {
    Disc(None, None, None, false, None, None, None, 0, "rough", None, map[])
  }

  /** The disc row after its save. */
  function Observed(d: Disc, ev: Event, now: int): Disc {
    d.(volumeLabel := ev.volumeLabel, discType := ev.discType, readPath := ev.readPath,
       blocked := ev.blocked, blockedReason := Presence(ev.blockedReason),
       discName := if Present(ev.discName) then ev.discName else d.discName,
       ripDir := if Present(ev.ripDir) then ev.ripDir else d.ripDir,
       totalSeconds := TotalSeconds(ev.titles),
       rippedAt := if ev.stage == "ripped" && d.rippedAt.None? then Some(now) else d.rippedAt)
  }

  function RipPath(dir: string, index: int): string {
    (if dir != "" && dir[|dir| - 1] == '/' then dir else dir + "/") + "title_" + TwoDigits(index) + ".mkv"
  }

  /** A title's row after its save; what people decided about it stays. */
  function Row(m: map<int, Title>, t: TitleData, dir: Option<string>): Title {
    var was := if t.index in m then m[t.index] else Title(0, 0, 0, 0, None, None, "unknown");
    Title(t.duration, t.chapters, t.audio, t.subtitles, Presence(t.sourceFile),
          if Present(dir) then Some(RipPath(dir.value, t.index)) else was.ripPath, was.role)
  }

  function Synced(m: map<int, Title>, ts: seq<TitleData>, dir: Option<string>): map<int, Title> {
    if ts == [] then m
    else
      var before := Synced(m, ts[..|ts| - 1], dir);
      before[ts[|ts| - 1].index := Row(before, ts[|ts| - 1], dir)]
  }

  /** How many saves an event is, and the disc row after the first `n` of them. */
  function Saves(ev: Event): nat { if IsDisc(ev) then 1 + |ev.titles| else 0 }

  function Saved(d: Disc, ev: Event, now: int, n: nat): Disc
    requires 0 < n <= 1 + |ev.titles|
  {
    var seen := Observed(d, ev, now);
    seen.(titles := Synced(seen.titles, ev.titles[..n - 1], seen.ripDir))
  }

  function Find(cat: Catalog, fp: string): Disc {
    if fp in cat then cat[fp] else Fresh()
  }

  /** The catalog after the first `n` saves of an event. */
  function Writes(cat: Catalog, ev: Event, now: int, n: nat): Catalog
    requires n <= Saves(ev)
  {
    if n == 0 then cat
    else cat[ev.fingerprint.value := Saved(Find(cat, ev.fingerprint.value), ev, now, n)]
  }

  function Full(cat: Catalog, ev: Event, now: int): Catalog {
    Writes(cat, ev, now, Saves(ev))
  }

  /** What people decide, which ingest must not undo. */
  datatype Decision = SetStatus(fp: string, status: string) | SetRole(fp: string, index: int, role: string)

  predicate Lands(cat: Catalog, d: Decision) {
    d.fp in cat && (d.SetRole? ==> d.index in cat[d.fp].titles)
  }

  function DecideDisc(was: Disc, d: Decision): Disc
    requires d.SetRole? ==> d.index in was.titles
  {
    if d.SetStatus? then was.(status := d.status)
    else was.(titles := was.titles[d.index := was.titles[d.index].(role := d.role)])
  }

  function Decide(cat: Catalog, d: Decision): Catalog {
    if !Lands(cat, d) then cat
    else cat[d.fp := DecideDisc(cat[d.fp], d)]
  }

  // ---------- the code ----------

  method SumSeconds(titles: seq<TitleData>) returns (total: int)
    ensures total == TotalSeconds(titles)
  {
    total := 0;
    for i := 0 to |titles|
      invariant total == TotalSeconds(titles[..i])
    {
      assert titles[..i + 1][..i] == titles[..i];
      total := total + titles[i].duration;
    }
    assert titles[..|titles|] == titles;
  }

  /** The fields of the disc row, one after the other. */
  method Observe(was: Disc, isNew: bool, ev: Event, now: int) returns (disc: Disc)
    requires isNew ==> was.status == "rough"
    ensures disc == Observed(was, ev, now)
  {
    disc := was.(volumeLabel := ev.volumeLabel, discType := ev.discType, readPath := ev.readPath,
                 blocked := ev.blocked, blockedReason := Presence(ev.blockedReason));
    if Present(ev.discName) {
      disc := disc.(discName := ev.discName);
    }
    if Present(ev.ripDir) {
      disc := disc.(ripDir := ev.ripDir);
    }
    var total := SumSeconds(ev.titles);
    disc := disc.(totalSeconds := total);
    if isNew {
      disc := disc.(status := "rough");
    }
    if ev.stage == "ripped" && disc.rippedAt.None? {
      disc := disc.(rippedAt := Some(now));
    }
  }

  class Bridge {
    var discs: Catalog
    var lastEventId: nat

    constructor ()
      ensures discs == map[] && lastEventId == 0
    {
      discs, lastEventId := map[], 0;
    }

    /** Ingest of one event; `n` is how many saves happen before the process dies, if it does. */
    method Apply(ev: Event, now: int, n: nat)
      requires n <= Saves(ev)
      modifies this`discs
      ensures discs == Writes(old(discs), ev, now, n)
    {
      if n == 0 || ev.kind != "disc" || !Present(ev.fingerprint) {
        return;
      }
      var fp := ev.fingerprint.value;
      var disc := Observe(Find(discs, fp), fp !in discs, ev, now);
      discs := discs[fp := disc];
      SyncTitles(fp, ev.titles, n - 1);
    }

    method SyncTitles(fp: string, titles: seq<TitleData>, n: nat)
      requires fp in discs && n <= |titles|
      modifies this`discs
      ensures var was := old(discs)[fp];
        discs == old(discs)[fp := was.(titles := Synced(was.titles, titles[..n], was.ripDir))]
    {
      ghost var was := discs[fp];
      for i := 0 to n
        invariant fp in discs
        invariant discs == old(discs)[fp := was.(titles := Synced(was.titles, titles[..i], was.ripDir))]
      {
        assert titles[..i + 1][..i] == titles[..i];
        var disc := discs[fp];
        discs := discs[fp := disc.(titles := disc.titles[titles[i].index := Row(disc.titles, titles[i], disc.ripDir)])];
      }
    }

    /** The cursor never moves back. */
    method Advance(id: nat)
      modifies this`lastEventId
      ensures lastEventId >= old(lastEventId) && lastEventId >= id
      ensures lastEventId == old(lastEventId) || lastEventId == id
    {
      if id <= lastEventId {
        return;
      }
      lastEventId := id;
    }
  }

  // ---------- one event, interrupted and repeated ----------

  function Indices(ts: seq<TitleData>): set<int> {
    if ts == [] then {} else Indices(ts[..|ts| - 1]) + {ts[|ts| - 1].index}
  }

  /** The last entry for an index. */
  function Last(ts: seq<TitleData>, i: int): (t: TitleData)
    requires i in Indices(ts)
    ensures t.index == i
  {
    if ts[|ts| - 1].index == i then ts[|ts| - 1] else Last(ts[..|ts| - 1], i)
  }

  lemma {:induction false} IndicesOfPrefix(ts: seq<TitleData>, n: nat)
    requires n <= |ts|
    ensures Indices(ts[..n]) <= Indices(ts)
  {
    if n < |ts| {
      IndicesOfPrefix(ts[..|ts| - 1], n);
      assert ts[..|ts| - 1][..n] == ts[..n];
    } else {
      assert ts[..n] == ts;
    }
  }

  /** The last entry for an index is the one that shows, on top of the row that was there
      before; a row no entry mentions is left alone. */
  lemma {:induction false} SyncedAt(m: map<int, Title>, ts: seq<TitleData>, dir: Option<string>)
    ensures Synced(m, ts, dir).Keys == m.Keys + Indices(ts)
    ensures forall i :: i in m && i !in Indices(ts) ==> Synced(m, ts, dir)[i] == m[i]
    ensures forall i :: i in Indices(ts) ==> Synced(m, ts, dir)[i] == Row(m, Last(ts, i), dir)
  {
    if ts != [] {
      SyncedAt(m, ts[..|ts| - 1], dir);
    }
  }

  lemma SyncedAbsorbs(m: map<int, Title>, ts: seq<TitleData>, dir: Option<string>, n: nat)
    requires n <= |ts|
    ensures Synced(Synced(m, ts[..n], dir), ts, dir) == Synced(m, ts, dir)
  {
    var half := Synced(m, ts[..n], dir);
    IndicesOfPrefix(ts, n);
    SyncedAt(m, ts[..n], dir);
    SyncedAt(m, ts, dir);
    SyncedAt(half, ts, dir);
    var twice, once := Synced(half, ts, dir), Synced(m, ts, dir);
    assert twice.Keys == once.Keys;
    forall i | i in once.Keys ensures twice[i] == once[i] {
      assert i in Indices(ts) || i in m;
    }
  }

  /** An event cut off after any of its saves and then repeated in full, at any later time,
      leaves the catalog as if it had been applied once, when its disc was first saved. */
  lemma CrashThenRepeat(cat: Catalog, ev: Event, now: int, n: nat, later: int)
    requires n <= Saves(ev)
    ensures Full(Writes(cat, ev, now, n), ev, later) == Full(cat, ev, if n > 0 then now else later)
  {
    if n > 0 {
      var fp := ev.fingerprint.value;
      var d := Find(cat, fp);
      var seen := Observed(d, ev, now);
      SyncedAbsorbs(seen.titles, ev.titles, seen.ripDir, n - 1);
      assert ev.titles[..|ev.titles|] == ev.titles;
      assert Saved(Saved(d, ev, now, n), ev, later, Saves(ev)) == Saved(d, ev, now, Saves(ev));
    }
  }

  lemma RowKeepsRole(m: map<int, Title>, ts: seq<TitleData>, dir: Option<string>, i: int, role: string)
    requires i in m
    ensures i in Synced(m, ts, dir)
    ensures Synced(m[i := m[i].(role := role)], ts, dir)
         == Synced(m, ts, dir)[i := Synced(m, ts, dir)[i].(role := role)]
  {
    var judged := m[i := m[i].(role := role)];
    SyncedAt(judged, ts, dir);
    SyncedAt(m, ts, dir);
    var before, after := Synced(judged, ts, dir), Synced(m, ts, dir);
    var expected := after[i := after[i].(role := role)];
    assert before.Keys == expected.Keys;
    forall j | j in before.Keys ensures before[j] == expected[j] {
      assert j in Indices(ts) || j in judged;
    }
  }

  lemma SavedCommutes(was: Disc, d: Decision, ev: Event, now: int)
    requires d.SetRole? ==> d.index in was.titles
    ensures var all := 1 + |ev.titles|;
      && (d.SetRole? ==> d.index in Saved(was, ev, now, all).titles)
      && Saved(DecideDisc(was, d), ev, now, all) == DecideDisc(Saved(was, ev, now, all), d)
  {
    var seen := Observed(was, ev, now);
    assert ev.titles[..|ev.titles|] == ev.titles;
    if d.SetRole? {
      RowKeepsRole(seen.titles, ev.titles, seen.ripDir, d.index, d.role);
    }
  }

  /** A decision already made is the same decision whether it was made before the event or after. */
  lemma DecisionSurvives(cat: Catalog, d: Decision, ev: Event, now: int)
    requires Lands(cat, d)
    ensures Lands(Full(cat, ev, now), d)
    ensures Full(Decide(cat, d), ev, now) == Decide(Full(cat, ev, now), d)
  {
    if IsDisc(ev) {
      SavedCommutes(cat[d.fp], d, ev, now);
    }
  }

  // ---------- a whole run of the bridge ----------

  /** What counts as having happened, in order: every event once, at the time its disc was
      first saved, and every decision that found its row. */
  datatype Entry = Once(ev: Event, at: int) | Judged(d: Decision)

  function Replayed(hist: seq<Entry>): Catalog {
    if hist == [] then map[]
    else
      var cat, e := Replayed(hist[..|hist| - 1]), hist[|hist| - 1];
      if e.Once? then Full(cat, e.ev, e.at) else Decide(cat, e.d)
  }

  function Applied(hist: seq<Entry>): seq<Event> {
    if hist == [] then []
    else
      var e := hist[|hist| - 1];
      if e.Once? then Applied(hist[..|hist| - 1]) + [e.ev] else Applied(hist[..|hist| - 1])
  }

  /** `log` is what the stream carries, event k having id k + 1.  `begun` says that some
      save of the event after the cursor has happened; `hist` is history only. */
  datatype State = State(cat: Catalog, cursor: nat, begun: bool, hist: seq<Entry>)

  /** An attempt gets through `saves` saves (as many as there are, if more) and, when it got
      through all of them, moves the cursor unless it dies first. */
  datatype Action = Attempt(now: int, saves: nat, acked: bool) | Judge(d: Decision)

  /** An attempt on event `ev`, which comes after the cursor. */
  function Tried(s: State, ev: Event, now: int, saves: nat, acked: bool): State {
    var n := if saves < Saves(ev) then saves else Saves(ev);
    var moved := acked && n == Saves(ev);
    State(Writes(s.cat, ev, now, n), if moved then s.cursor + 1 else s.cursor,
          (s.begun || n > 0) && !moved,
          if !s.begun && (n > 0 || moved) then s.hist + [Once(ev, now)] else s.hist)
  }

  function Decided(s: State, d: Decision): State {
    if Lands(s.cat, d) then s.(cat := Decide(s.cat, d), hist := s.hist + [Judged(d)]) else s
  }

  function Step(log: seq<Event>, s: State, a: Action): State {
    match a
    case Judge(d) => Decided(s, d)
    case Attempt(now, saves, acked) => if s.cursor < |log| then Tried(s, log[s.cursor], now, saves, acked) else s
  }

  function Run(log: seq<Event>, acts: seq<Action>): State {
    if acts == [] then State(map[], 0, false, [])
    else Step(log, Run(log, acts[..|acts| - 1]), acts[|acts| - 1])
  }

  /** Between events the catalog is the history's; within one, finishing it at any time
      would make it so. */
  ghost predicate Faithful(log: seq<Event>, s: State) {
    && s.cursor <= |log|
    && (s.begun ==> s.cursor < |log|)
    && Applied(s.hist) == log[..if s.begun then s.cursor + 1 else s.cursor]
    && (!s.begun ==> s.cat == Replayed(s.hist))
    && (s.begun ==> forall now :: Full(s.cat, log[s.cursor], now) == Replayed(s.hist))
  }

  lemma AttemptKeeps(log: seq<Event>, s: State, a: Action)
    requires Faithful(log, s) && a.Attempt? && s.cursor < |log|
    ensures Faithful(log, Step(log, s, a))
  {
    var ev, t := log[s.cursor], Step(log, s, a);
    var n := if a.saves < Saves(ev) then a.saves else Saves(ev);
    assert log[..s.cursor + 1] == log[..s.cursor] + [ev];
    var longer := s.hist + [Once(ev, a.now)];
    assert longer[..|longer| - 1] == s.hist;
    assert n == Saves(ev) ==> t.cat == Full(s.cat, ev, a.now);
    forall now ensures Full(t.cat, ev, now) == Full(s.cat, ev, if n > 0 then a.now else now) {
      CrashThenRepeat(s.cat, ev, a.now, n, now);
    }
  }

  lemma JudgeKeeps(log: seq<Event>, s: State, d: Decision)
    requires Faithful(log, s) && Lands(s.cat, d)
    ensures Faithful(log, Step(log, s, Judge(d)))
  {
    var longer := s.hist + [Judged(d)];
    assert longer[..|longer| - 1] == s.hist;
    if s.begun {
      forall now ensures Full(Decide(s.cat, d), log[s.cursor], now) == Decide(Replayed(s.hist), d) {
        DecisionSurvives(s.cat, d, log[s.cursor], now);
      }
    }
  }

  /** However often the bridge dies, and whatever people decide in between, the catalog is
      the one that applying each event up to the cursor exactly once, in order, would give. */
  lemma {:induction false} EachEventOnce(log: seq<Event>, acts: seq<Action>)
    ensures Faithful(log, Run(log, acts))
  {
    if acts != [] {
      var before, a := acts[..|acts| - 1], acts[|acts| - 1];
      EachEventOnce(log, before);
      var s := Run(log, before);
      if a.Attempt? && s.cursor < |log| {
        AttemptKeeps(log, s, a);
      } else if a.Judge? && Lands(s.cat, a.d) {
        JudgeKeeps(log, s, a.d);
      }
    }
  }

  // ---------- what is never lost ----------

  /** No event takes back a name, a rip directory, a rip time, a status, a title or a role
      that is already recorded. */
  lemma NothingIsTakenBack(cat: Catalog, ev: Event, now: int, n: nat, fp: string)
    requires n <= Saves(ev) && fp in cat
    ensures var after := Writes(cat, ev, now, n);
      && fp in after && after[fp].status == cat[fp].status
      && after[fp].discName in {cat[fp].discName, ev.discName} && after[fp].ripDir in {cat[fp].ripDir, ev.ripDir}
      && (Present(cat[fp].discName) ==> Present(after[fp].discName))
      && (Present(cat[fp].ripDir) ==> Present(after[fp].ripDir))
      && (cat[fp].rippedAt.Some? ==> after[fp].rippedAt == cat[fp].rippedAt)
      && forall i :: i in cat[fp].titles ==>
           && i in after[fp].titles && after[fp].titles[i].role == cat[fp].titles[i].role
           && (cat[fp].titles[i].ripPath.Some? ==> after[fp].titles[i].ripPath.Some?)
  {
    if n > 0 && fp == ev.fingerprint.value {
      var seen := Observed(cat[fp], ev, now);
      SyncedAt(seen.titles, ev.titles[..n - 1], seen.ripDir);
    }
  }

  /** Only an event of kind disc with a fingerprint that is not blank counts. */
  lemma CountsIff(cat: Catalog, ev: Event, now: int)
    ensures if ev.kind == "disc" && ev.fingerprint.Some? && exists c :: c in ev.fingerprint.value && !IsSpace(c)
      then ev.fingerprint.value in Full(cat, ev, now) else Full(cat, ev, now) == cat
  {
    if ev.fingerprint.Some? {
      var fp := ev.fingerprint.value;
      if c :| c in fp && !IsSpace(c) {
        var i :| 0 <= i < |fp| && fp[i] == c;
      } else {
        assert forall i :: 0 <= i < |fp| ==> fp[i] in fp;
      }
    }
  }

  /** Titles of one rip are found in its directory, each under its number. */
  lemma RipPathIs(dir: string, i: int) returns (d: string)
    ensures (d == dir || d + "/" == dir) && RipPath(dir, i) == d + "/" + "title_" + TwoDigits(i) + ".mkv"
  {
    d := if dir != "" && dir[|dir| - 1] == '/' then dir[..|dir| - 1] else dir;
    assert dir != "" && dir[|dir| - 1] == '/' ==> d + "/" == dir;
  }

  // ---------- what shows ----------

  ghost predicate TitleShows(row: Title, t: TitleData, dir: Option<string>) {
    && row.duration == t.duration && row.chapters == t.chapters && row.audio == t.audio
    && row.subtitles == t.subtitles && row.sourceFile == Presence(t.sourceFile)
    && (Present(dir) ==> row.ripPath == Some(RipPath(dir.value, t.index)))
  }

  /** The row says what the event said of the disc and, entry by entry, of its titles. */
  ghost predicate Shows(d: Disc, ev: Event) {
    && d.volumeLabel == ev.volumeLabel && d.discType == ev.discType && d.readPath == ev.readPath
    && d.blocked == ev.blocked && d.blockedReason == Presence(ev.blockedReason)
    && d.totalSeconds == TotalSeconds(ev.titles)
    && (Present(ev.discName) ==> d.discName == ev.discName) && (Present(ev.ripDir) ==> d.ripDir == ev.ripDir)
    && (ev.stage == "ripped" ==> d.rippedAt.Some?)
    && forall i :: i in Indices(ev.titles) ==> i in d.titles && TitleShows(d.titles[i], Last(ev.titles, i), d.ripDir)
  }

  /** `e` is not an event about disc `fp`. */
  predicate NotAbout(e: Entry, fp: string) { e.Once? && IsDisc(e.ev) ==> e.ev.fingerprint.value != fp }

  lemma FullShows(cat: Catalog, ev: Event, now: int)
    requires IsDisc(ev)
    ensures var fp, after := ev.fingerprint.value, Full(cat, ev, now);
      && fp in after && Shows(after[fp], ev)
      && (fp !in cat ==> after[fp].status == "rough" && (ev.stage != "ripped" ==> after[fp].rippedAt.None?))
  {
    var seen := Observed(Find(cat, ev.fingerprint.value), ev, now);
    assert ev.titles[..|ev.titles|] == ev.titles;
    SyncedAt(seen.titles, ev.titles, seen.ripDir);
  }

  lemma DecisionShows(cat: Catalog, d: Decision, fp: string, ev: Event)
    requires fp in cat && Shows(cat[fp], ev)
    ensures fp in Decide(cat, d) && Shows(Decide(cat, d)[fp], ev)
  {
  }

  /** Whatever came before and was decided since, a disc's row shows the last event about it. */
  lemma {:induction false} LastEventShows(hist: seq<Entry>, k: nat, fp: string)
    requires k < |hist| && hist[k].Once? && IsDisc(hist[k].ev) && hist[k].ev.fingerprint.value == fp
    requires forall j :: k < j < |hist| ==> NotAbout(hist[j], fp)
    ensures fp in Replayed(hist) && Shows(Replayed(hist)[fp], hist[k].ev)
  {
    var front, e := hist[..|hist| - 1], hist[|hist| - 1];
    if k == |hist| - 1 {
      FullShows(Replayed(front), e.ev, e.at);
    } else {
      LastEventShows(front, k, fp);
      assert NotAbout(e, fp);
      if e.Judged? {
        DecisionShows(Replayed(front), e.d, fp, hist[k].ev);
      }
    }
  }

  /** `e` is not a decision on what `d` decides. */
  predicate LeavesIt(e: Entry, d: Decision) {
    e.Judged? ==> e.d.fp != d.fp || e.d.SetStatus? != d.SetStatus? || (d.SetRole? && e.d.index != d.index)
  }

  predicate Holds(cat: Catalog, d: Decision) {
    && Lands(cat, d)
    && if d.SetStatus? then cat[d.fp].status == d.status else cat[d.fp].titles[d.index].role == d.role
  }

  /** What a person decided last is what the catalog says, whatever events come after. */
  lemma {:induction false} LastDecisionHolds(hist: seq<Entry>, k: nat, d: Decision)
    requires k < |hist| && hist[k] == Judged(d) && Lands(Replayed(hist[..k]), d)
    requires forall j :: k < j < |hist| ==> LeavesIt(hist[j], d)
    ensures Holds(Replayed(hist), d)
  {
    var front, e := hist[..|hist| - 1], hist[|hist| - 1];
    if k < |hist| - 1 {
      assert front[..k] == hist[..k];
      LastDecisionHolds(front, k, d);
      assert LeavesIt(e, d);
      if e.Once? {
        NothingIsTakenBack(Replayed(front), e.ev, e.at, Saves(e.ev), d.fp);
      }
    } else {
      assert front == hist[..k];
    }
  }

  /** Where in the history the `k`th event was applied, with only later events after it. */
  lemma {:induction false} AppliedWhere(hist: seq<Entry>, k: nat) returns (i: nat)
    requires k < |Applied(hist)|
    ensures i < |hist| && hist[i].Once? && hist[i].ev == Applied(hist)[k]
    ensures forall j :: i < j < |hist| && hist[j].Once? ==>
      exists m :: k < m < |Applied(hist)| && Applied(hist)[m] == hist[j].ev
  {
    var front, e := hist[..|hist| - 1], hist[|hist| - 1];
    if e.Once? && k == |Applied(hist)| - 1 {
      i := |hist| - 1;
    } else {
      i := AppliedWhere(front, k);
      forall j | i < j < |hist| && hist[j].Once?
        ensures exists m :: k < m < |Applied(hist)| && Applied(hist)[m] == hist[j].ev
      {
        if j == |hist| - 1 {
          assert Applied(hist)[|Applied(hist)| - 1] == e.ev;
        } else {
          assert front[j] == hist[j];
          var m :| k < m < |Applied(front)| && Applied(front)[m] == front[j].ev;
          assert Applied(hist)[m] == hist[j].ev;
        }
      }
    }
  }

  /** Over every run of the bridge, with its crashes, repeats and decisions: between events, the
      row of every disc is what the last event about it up to the cursor said. */
  lemma CatalogShowsTheLog(log: seq<Event>, acts: seq<Action>, k: nat)
    requires var s := Run(log, acts); !s.begun && k < s.cursor <= |log| && IsDisc(log[k])
    requires forall j :: k < j < Run(log, acts).cursor && IsDisc(log[j]) ==> log[j].fingerprint != log[k].fingerprint
    ensures var s, fp := Run(log, acts), log[k].fingerprint.value; fp in s.cat && Shows(s.cat[fp], log[k])
  {
    var s, fp := Run(log, acts), log[k].fingerprint.value;
    EachEventOnce(log, acts);
    assert Applied(s.hist) == log[..s.cursor];
    var i := AppliedWhere(s.hist, k);
    forall j | i < j < |s.hist| ensures NotAbout(s.hist[j], fp) {
      if s.hist[j].Once? {
        var m :| k < m < |Applied(s.hist)| && Applied(s.hist)[m] == s.hist[j].ev;
        assert log[m] == s.hist[j].ev;
      }
    }
    LastEventShows(s.hist, i, fp);
  }
}
