/** One drive worker taking a DVD from insertion to its ending, in the order the code does it.

    The world decides what scans, decrypts, extractions, files and store calls come back
    with, and at which point the context dies.  `clock` counts the points the worker has
    passed; a store call through the context fails from `deadAt` on. */
module Worker {
  import opened RipStore
  import opened Text

  datatype Title = Title(index: int, secs: int)

  datatype Config = Config(ejectOnSuccess: bool, ejectOnFailure: bool, cap: nat)

  datatype Scan = ScanGone | ScanFailed | ScanOk(fp: string, titles: seq<Title>)

  datatype Source = FromDrive | FromFolder | Refused | MirrorFailed

  datatype TitleRun = TitleRun(extracted: bool, verified: bool, marked: bool)

  /** `rescan` is empty when rescanning the decrypted copy failed; a rescan that reports no titles
      is one that failed.  `recordOk` and `cancelOk` say whether the store takes the job-state
      writes whose errors are discarded: those through the context, and the detached ones. */
  datatype World = World(
    scan: Scan, findOk: bool, saveOk: bool, countOk: bool, createOk: bool,
    ripDir: Option<string>, source: Source, rescan: seq<Title>, filesOk: bool,
    runs: nat -> TitleRun, ripDirOk: bool, ejectOk: bool, deadAt: nat, recordOk: bool, cancelOk: bool)

  datatype RipEnd = Ripped | RipFailed | RipCancelled | RipStopped

  datatype Ending = DiscLeft | Interrupted | FailedEnd | AlreadyRipped | CancelledEnd | StoppedEnd | RippedEnd

  const MIN_KEPT_PERCENT := 60

  // ---------- running times ----------

  function TotalSecs(ts: seq<Title>): int {
    if ts == [] then 0 else TotalSecs(ts[..|ts| - 1]) + ts[|ts| - 1].secs
  }

  function Durations(ts: seq<Title>): set<int> {
    set i | 0 <= i < |ts| :: ts[i].secs
  }

  ghost function SumSet(s: set<int>): int {
    if exists x :: x in s then var x :| x in s; x + SumSet(s - {x}) else 0
  }

  lemma {:induction false} SumSetAdd(s: set<int>, y: int)
    requires y !in s
    ensures SumSet(s + {y}) == SumSet(s) + y
    decreases |s|
  {
    var x :| x in s + {y} && SumSet(s + {y}) == x + SumSet(s + {y} - {x});
    if x == y {
      assert s + {y} - {x} == s;
    } else {
      assert s + {y} - {x} == (s - {x}) + {y};
      SumSetAdd(s - {x}, y);
      SumSetAdd(s - {x}, x);
      assert (s - {x}) + {x} == s;
    }
  }

  method TotalSecsOf(ts: seq<Title>) returns (n: int)
    ensures n == TotalSecs(ts)
  {
    n := 0;
    for i := 0 to |ts|
      invariant n == TotalSecs(ts[..i])
    {
      assert ts[..i + 1][..i] == ts[..i];
      n := n + ts[i].secs;
    }
    assert ts[..|ts|] == ts;
  }

  /** The running time counting each distinct duration once, in whatever order and however
      often the drive lists them. */
  method DedupedSecsOf(ts: seq<Title>) returns (n: int)
    ensures n == SumSet(Durations(ts))
  {
    var seen: set<int> := {};
    n := 0;
    for i := 0 to |ts|
      invariant seen == Durations(ts[..i]) && n == SumSet(seen)
    {
      assert Durations(ts[..i + 1]) == Durations(ts[..i]) + {ts[i].secs};
      if ts[i].secs !in seen {
        SumSetAdd(seen, ts[i].secs);
        seen := seen + {ts[i].secs};
        n := n + ts[i].secs;
      } else {
        assert seen + {ts[i].secs} == seen;
      }
    }
    assert ts[..|ts|] == ts;
  }

  /** Whether a decrypted copy accounts for too little of what the drive described. */
  ghost predicate TooLittle(copy: seq<Title>, drive: seq<Title>) {
    SumSet(Durations(drive)) > 0 && TotalSecs(copy) * 100 < SumSet(Durations(drive)) * MIN_KEPT_PERCENT
  }

  /** The titles a rip goes through: the drive's, or those of a rescanned copy. */
  ghost function Chosen(world: World, titles: seq<Title>): seq<Title> {
    if world.source == FromFolder && world.rescan != [] then world.rescan else titles
  }

  // ---------- what the world has to grant ----------

  /** The first `n` titles are written, verified and marked. */
  ghost predicate Written(world: World, n: nat) {
    forall i :: 0 <= i < n ==> world.runs(i).extracted && world.runs(i).verified && world.runs(i).marked
  }

  /** There is a directory, something to read from that holds enough of the disc, and a place for
      the scan: extraction begins. */
  ghost predicate Begins(world: World, titles: seq<Title>) {
    && world.ripDir.Some? && world.filesOk
    && (world.source == FromDrive
        || (world.source == FromFolder && (world.rescan == [] || !TooLittle(world.rescan, titles))))
  }

  /** Seen from point `start`, extraction begins, every title is written, verified and marked, and
      the directory is recorded, all before the context dies.  A title takes two points. */
  ghost predicate Succeeds(world: World, titles: seq<Title>, start: nat) {
    var n := |Chosen(world, titles)|;
    Begins(world, titles) && Written(world, n) && world.ripDirOk && start + 3 + 2 * n < world.deadAt
  }

  /** Seen from point `start`, the context dies while title `i` of `n` is being extracted,
      everything before it being done. */
  ghost predicate StopsAt(world: World, n: nat, start: nat, i: nat) {
    && i < n && Written(world, i) && !world.runs(i).extracted
    && (i > 0 ==> start + 2 * i < world.deadAt) && start + 2 * i + 1 >= world.deadAt
  }

  ghost predicate Stops(world: World, n: nat, start: nat) {
    exists i: nat :: StopsAt(world, n, start, i)
  }

  /** How a job begun at point `start` ends, whatever the ending. */
  ghost predicate EndsAs(world: World, titles: seq<Title>, start: nat, end: Ending) {
    && end in {CancelledEnd, StoppedEnd, FailedEnd, RippedEnd}
    && (end == RippedEnd <==> Succeeds(world, titles, start))
    && (end == CancelledEnd <==> world.ripDir.Some? && world.source == MirrorFailed && start + 1 >= world.deadAt)
    && (end == StoppedEnd <==> Begins(world, titles) && Stops(world, |Chosen(world, titles)|, start + 2))
  }

  /** What the job's row says then: its outcome, or where it had got to when the context was dead
      or the store did not take the write.  A cancellation is written past the dead context. */
  ghost predicate JobEndsAs(world: World, end: Ending, dead: bool, was: JobState, state: JobState) {
    if end in {CancelledEnd, StoppedEnd} && world.cancelOk then state == Cancelled
    else if end in {CancelledEnd, StoppedEnd} || dead || !world.recordOk then state in {was, Ripping}
    else state == if end == RippedEnd then Complete else Failed
  }

  /** What the attempts column says, or zero when it cannot be read. */
  function Seen(world: World, st: Store, fp: string): nat {
    if world.countOk then Attempts(st, fp) else 0
  }

  /** Seen from point `start`, a disc without a recorded rip and with attempts left gets its job. */
  predicate GetsJob(cfg: Config, world: World, st: Store, fp: string, start: nat) {
    && world.findOk && world.saveOk && world.createOk && start + 4 < world.deadAt
    && RipDirOf(st, fp) == "" && Seen(world, st, fp) < cfg.cap
  }

  /** Nothing anyone could take for a finished rip has changed. */
  ghost predicate SameRipDirs(a: Store, b: Store) {
    forall fp: string :: RipDirOf(a, fp) == RipDirOf(b, fp)
  }

  /** The jobs that were there before are as they were. */
  ghost predicate OldJobsKept(a: Store, b: Store) {
    |a.jobs| <= |b.jobs| && b.jobs[..|a.jobs|] == a.jobs
  }

  /** The same attempt at the same disc, wherever it has got to. */
  ghost predicate SameAttempt(a: Job, b: Job) { a.disc == b.disc && a.attempt == b.attempt }

  lemma SavingChangesNothing(st: Store, fp: string)
    ensures SameRipDirs(SaveDisc(st, fp), st) && Attempts(SaveDisc(st, fp), fp) == Attempts(st, fp)
    ensures SaveDisc(st, fp).jobs == st.jobs && fp in SaveDisc(st, fp).discs
  {
  }

  /** How a scanned disc fared between `was` at point `start` and `now` at point `point`.  It was
      recognised, or got a job, or neither, exactly when it should; the job is this disc's next
      attempt, ends as the world has it, and says so; only a finished rip is ever recorded, and
      only for this disc, and nothing else of the past is touched. */
  ghost predicate Attended(cfg: Config, world: World, was: Store, start: nat, now: Store, point: nat, end: Ending)
    requires world.scan.ScanOk?
  {
    var fp, titles, n := world.scan.fp, world.scan.titles, |was.jobs|;
    && (end == AlreadyRipped <==> world.findOk && start + 1 < world.deadAt && RipDirOf(was, fp) != "")
    && (end == AlreadyRipped ==> now == was)
    && OldJobsKept(was, now) && |now.jobs| <= n + 1
    && (|now.jobs| > n <==> GetsJob(cfg, world, was, fp, start))
    && (|now.jobs| > n ==>
          && SameAttempt(now.jobs[n], Job(fp, Pending, Seen(world, was, fp) + 1))
          && EndsAs(world, titles, start + 4, end)
          && JobEndsAs(world, end, point >= world.deadAt, Pending, now.jobs[n].state))
    && (|now.jobs| == n ==> end in {AlreadyRipped, FailedEnd})
    && (end == RippedEnd ==>
          && point == start + 8 + 2 * |Chosen(world, titles)|
          && world.ripDir.Some? && RipDirOf(now, fp) == world.ripDir.value != "")
    && (forall g: string :: g != fp || end != RippedEnd ==> RipDirOf(now, g) == RipDirOf(was, g))
  }

  lemma NoJobAttended(cfg: Config, world: World, was: Store, start: nat, now: Store, point: nat, end: Ending)
    requires world.scan.ScanOk? && end in {AlreadyRipped, FailedEnd} && !GetsJob(cfg, world, was, world.scan.fp, start)
    requires end == AlreadyRipped <==>
      world.findOk && start + 1 < world.deadAt && RipDirOf(was, world.scan.fp) != ""
    requires now == was || (end == FailedEnd && now == SaveDisc(was, world.scan.fp))
    ensures Attended(cfg, world, was, start, now, point, end)
  {
    SavingChangesNothing(was, world.scan.fp);
  }

  /** What became of the newest job, `fp`'s, begun at point `start`: its end and its row, and the
      rip directory recorded if it came to that.  All other rows are as they were. */
  ghost predicate JobRan(world: World, fp: string, titles: seq<Title>, was: Store, start: nat, now: Store, point: nat,
      end: Ending)
    requires was.jobs != [] && fp in was.discs
  {
    var n := |was.jobs| - 1;
    && EndsAs(world, titles, start, end)
    && |now.jobs| == |was.jobs| && now.jobs[..n] == was.jobs[..n] && SameAttempt(now.jobs[n], was.jobs[n])
    && JobEndsAs(world, end, point >= world.deadAt, was.jobs[n].state, now.jobs[n].state)
    && (end == RippedEnd ==>
          && point == start + 4 + 2 * |Chosen(world, titles)| && world.ripDir.Some?
          && now.discs == was.discs[fp := was.discs[fp].(ripDir := world.ripDir.value)])
    && (end != RippedEnd ==> now.discs == was.discs)
  }

  lemma JobAttended(cfg: Config, world: World, was: Store, start: nat, begun: Store, now: Store, point: nat,
      end: Ending)
    requires world.scan.ScanOk? && world.ripDir != Some("") && GetsJob(cfg, world, was, world.scan.fp, start)
    requires begun == CreateJob(SaveDisc(was, world.scan.fp), world.scan.fp, Seen(world, was, world.scan.fp) + 1)
    requires JobRan(world, world.scan.fp, world.scan.titles, begun, start + 4, now, point, end)
    ensures Attended(cfg, world, was, start, now, point, end)
  {
    SavingChangesNothing(was, world.scan.fp);
  }

  class Drive {
    const cfg: Config
    var store: Store
    var trayOpenings: nat
    var clock: nat

    method Tick()
      modifies this`clock
      ensures clock == old(clock) + 1
    {
      clock := clock + 1;
    }

    method EjectNow(world: World)
      modifies this`trayOpenings
      ensures trayOpenings == old(trayOpenings) + if cfg.ejectOnSuccess && world.ejectOk then 1 else 0
    {
      if cfg.ejectOnSuccess && world.ejectOk {
        trayOpenings := trayOpenings + 1;
      }
    }

    method Fail(world: World)
      modifies this`trayOpenings
      ensures trayOpenings == old(trayOpenings) +
        if cfg.ejectOnFailure && cfg.ejectOnSuccess && world.ejectOk then 1 else 0
    {
      if cfg.ejectOnFailure {
        EjectNow(world);
      }
    }

    /** Writes, verifies and marks title after title, up to the first that cannot be. */
    method WriteTitles(world: World, job: nat, n: nat) returns (end: RipEnd)
      modifies this`store, this`clock
      ensures end != RipCancelled && clock >= old(clock) && (end == Ripped ==> clock == old(clock) + 2 * n)
      ensures end == Ripped <==> Written(world, n) && (n > 0 ==> old(clock) + 2 * n < world.deadAt)
      ensures end == RipStopped <==> Stops(world, n, old(clock))
      ensures end == RipStopped ==> clock >= world.deadAt
      ensures store ==
        if end == RipStopped && world.cancelOk then SetJobState(old(store), job, Cancelled) else old(store)
    {
      for i := 0 to n
        invariant store == old(store) && clock == old(clock) + 2 * i
        invariant Written(world, i) && (i > 0 ==> clock < world.deadAt)
      {
        Tick();
        if !world.runs(i).extracted {
          if clock >= world.deadAt {
            assert StopsAt(world, n, old(clock), i);
            if world.cancelOk {
              store := SetJobState(store, job, Cancelled);
            }
            return RipStopped;
          }
          return RipFailed;
        }
        if !world.runs(i).verified {
          return RipFailed;
        }
        Tick();
        if !world.runs(i).marked || clock >= world.deadAt {
          return RipFailed;
        }
      }
      end := Ripped;
    }

    /** Writes every title, verifies each, and only then records where the rip landed. */
    method Rip(world: World, job: nat, fp: string, titles: seq<Title>) returns (end: RipEnd, used: seq<Title>)
      requires 1 <= job <= |store.jobs| && fp in store.discs && world.ripDir != Some("")
      modifies this`store, this`clock
      ensures clock >= old(clock) && (end == Ripped ==> clock == old(clock) + 3 + 2 * |used|)
      ensures end == Ripped <==> Succeeds(world, titles, old(clock))
      ensures end == Ripped ==> used == Chosen(world, titles)
      ensures end == RipCancelled <==>
        world.ripDir.Some? && world.source == MirrorFailed && old(clock) + 1 >= world.deadAt
      ensures end == RipStopped <==> Begins(world, titles) && Stops(world, |Chosen(world, titles)|, old(clock) + 2)
      ensures end in {RipCancelled, RipStopped} ==> clock >= world.deadAt
      ensures var begun := Begins(world, titles) && old(clock) + 2 < world.deadAt && world.recordOk;
        var shown := if begun then SetJobState(old(store), job, Ripping) else old(store);
        store ==
          if end == Ripped then SetRipDir(shown, fp, world.ripDir.value)
          else if end == RipStopped && world.cancelOk then SetJobState(shown, job, Cancelled)
          else shown
    {
      used := titles;
      if world.ripDir.None? {
        return RipFailed, used;
      }
      Tick();
      if world.source == Refused {
        return RipFailed, used;
      }
      if world.source == MirrorFailed {
        if clock >= world.deadAt {
          return RipCancelled, used;
        }
        return RipFailed, used;
      }
      if world.source == FromFolder && world.rescan != [] {
        var kept := TotalSecsOf(world.rescan);
        var want := DedupedSecsOf(titles);
        if want > 0 && kept * 100 < want * MIN_KEPT_PERCENT {
          return RipFailed, used;
        }
        used := world.rescan;
      }
      if !world.filesOk {
        return RipFailed, used;
      }
      Tick();
      if clock < world.deadAt && world.recordOk {
        store := SetJobState(store, job, Ripping);
      }
      end := WriteTitles(world, job, |used|);
      if end != Ripped {
        return;
      }
      Tick();
      if !world.ripDirOk || clock >= world.deadAt {
        return RipFailed, used;
      }
      store := SetRipDir(store, fp, world.ripDir.value);
    }

    /** Everything between a good scan and an open job: recognising a finished disc, recording
        it, and refusing one that has used up its attempts. */
    method OpenAttempt(world: World, fp: string) returns (end: Option<Ending>)
      modifies this
      ensures clock >= old(clock)
      ensures end.Some? ==> end.value in {FailedEnd, AlreadyRipped}
      ensures trayOpenings == old(trayOpenings) + if Opens(cfg, world, end) then 1 else 0
      ensures end == Some(AlreadyRipped) <==>
        world.findOk && old(clock) + 1 < world.deadAt && RipDirOf(old(store), fp) != ""
      ensures end == Some(AlreadyRipped) ==> store == old(store)
      ensures end == Some(FailedEnd) ==> store in {old(store), SaveDisc(old(store), fp)}
      ensures end.None? <==> GetsJob(cfg, world, old(store), fp, old(clock))
      ensures end.None? ==>
        && clock == old(clock) + 4
        && store == CreateJob(SaveDisc(old(store), fp), fp, Seen(world, old(store), fp) + 1)
    {
      Tick();
      if !world.findOk || clock >= world.deadAt {
        Fail(world);
        return Some(FailedEnd);
      }
      if fp in store.discs && store.discs[fp].ripDir != "" {
        EjectNow(world);
        return Some(AlreadyRipped);
      }
      Tick();
      if !world.saveOk || clock >= world.deadAt {
        Fail(world);
        return Some(FailedEnd);
      }
      SavingChangesNothing(store, fp);
      store := SaveDisc(store, fp);
      Tick();
      var attempts := 0;
      if world.countOk && clock < world.deadAt {
        attempts := Attempts(store, fp);
      }
      if attempts >= cfg.cap {
        Fail(world);
        return Some(FailedEnd);
      }
      Tick();
      if !world.createOk || clock >= world.deadAt {
        Fail(world);
        return Some(FailedEnd);
      }
      store := CreateJob(store, fp, attempts + 1);
      end := None;
    }

    /** An open tray means success: apart from `ejectOnFailure`, the tray opens only for a
        disc whose rip was already recorded or was verified title by title and recorded in
        this very run. */
    method HandleDisc(world: World) returns (end: Ending, used: seq<Title>)
      requires world.ripDir != Some("")
      modifies this
      ensures trayOpenings == old(trayOpenings) + if Opens(cfg, world, Some(end)) then 1 else 0
      ensures end == DiscLeft <==> world.scan.ScanGone?
      ensures end == Interrupted <==> world.scan.ScanFailed? && old(clock) >= world.deadAt
      ensures !world.scan.ScanOk? ==> store == old(store) && end in {DiscLeft, Interrupted, FailedEnd}
      ensures world.scan.ScanOk? ==>
        && Attended(cfg, world, old(store), old(clock), store, clock, end)
        && (end == RippedEnd ==> used == Chosen(world, world.scan.titles))
    {
      used := [];
      match world.scan {
        case ScanGone =>
          return DiscLeft, used;
        case ScanFailed =>
          if clock >= world.deadAt {
            return Interrupted, used;
          }
          Fail(world);
          return FailedEnd, used;
        case ScanOk(_, _) =>
      }
      end, used := Attend(world);
    }

    method Attend(world: World) returns (end: Ending, used: seq<Title>)
      requires world.scan.ScanOk? && world.ripDir != Some("")
      modifies this
      ensures trayOpenings == old(trayOpenings) + if Opens(cfg, world, Some(end)) then 1 else 0
      ensures Attended(cfg, world, old(store), old(clock), store, clock, end)
      ensures end == RippedEnd ==> used == Chosen(world, world.scan.titles)
    {
      used := [];
      var fp, titles := world.scan.fp, world.scan.titles;
      var early := OpenAttempt(world, fp);
      if early.Some? {
        NoJobAttended(cfg, world, old(store), old(clock), store, clock, early.value);
        return early.value, used;
      }
      ghost var begun := store;
      end, used := RunJob(world, |store.jobs|, fp, titles);
      JobAttended(cfg, world, old(store), old(clock), begun, store, clock, end);
    }

    /** The job from its first byte to its recorded end. */
    method RunJob(world: World, job: nat, fp: string, titles: seq<Title>) returns (end: Ending, used: seq<Title>)
      requires 1 <= job == |store.jobs| && fp in store.discs && world.ripDir != Some("")
      modifies this
      ensures trayOpenings == old(trayOpenings) + if Opens(cfg, world, Some(end)) then 1 else 0
      ensures JobRan(world, fp, titles, old(store), old(clock), store, clock, end)
      ensures end == RippedEnd ==> used == Chosen(world, titles)
    {
      var rip: RipEnd;
      rip, used := Rip(world, job, fp, titles);
      if rip == RipCancelled {
        if world.cancelOk {
          store := SetJobState(store, job, Cancelled);
        }
        end := CancelledEnd;
      } else if rip == Ripped {
        Tick();
        if clock < world.deadAt && world.recordOk {
          store := SetJobState(store, job, Complete);
        }
        EjectNow(world);
        end := RippedEnd;
      } else {
        // A stopped extraction is already recorded, and its context is dead.
        if clock < world.deadAt && world.recordOk {
          store := SetJobState(store, job, Failed);
        }
        Fail(world);
        end := if rip == RipStopped then StoppedEnd else FailedEnd;
      }
    }
  }

  /** The endings that open the tray. */
  predicate Opens(cfg: Config, world: World, end: Option<Ending>) {
    && cfg.ejectOnSuccess && world.ejectOk && end.Some?
    && (end.value in {AlreadyRipped, RippedEnd} || (cfg.ejectOnFailure && end.value in {FailedEnd, StoppedEnd}))
  }
}
