/** Any number of drive workers sharing one disc slot, one store, and a cap on attempts.

    Steps interleave arbitrarily with forgetting, cancellation and restarts.  A write through
    a dead context does nothing.  The outside world (scans, rips, store errors) is whatever
    the actions say it is. */
module RipJobs {
  import opened RipStore

  /** Where a worker is.  Every phase but the first two holds the slot; `dead` says that the
      context of this insertion has been cancelled. */
  datatype Phase =
    | Idle
    | Waiting
    | Holding(dead: bool)
    | Scanned(fp: string, dead: bool)
    | Saved(fp: string, dead: bool)
    | Counted(fp: string, seen: nat, misread: bool, dead: bool)
    | Working(fp: string, job: nat, dead: bool)
    | Noted(fp: string, job: nat, dead: bool)  // a cancelled extraction, recorded if it could be

  datatype State = State(store: Store, tokens: nat, workers: seq<Phase>, misreads: map<string, nat>)

  datatype Action =
    | Insert(w: nat)
    | GetSlot(w: nat)
    | GiveUp(w: nat)
    | CancelContext(w: nat)
    | ScanOk(w: nat, fp: string)
    | LookUp(w: nat, ok: bool)
    | ReadAttempts(w: nat, ok: bool)
    | OpenJob(w: nat, ok: bool)
    | Progress(w: nat, s: JobState)
    | StopDecrypt(w: nat, ok: bool)    // errCancelled reaches the handler
    | StopExtract(w: nat, ok: bool)    // the rip loop records the cancellation itself
    | RecordFailure(w: nat, ok: bool)  // the handler's own SetJobState(JobFailed)
    | RecordRip(w: nat, dir: string)   // a directory's path is never empty
    | RecordComplete(w: nat, ok: bool)
    | Leave(w: nat)             // any other early return
    | ForgetDisc(fp: string)
    | Restart(reclaimed: bool)  // startup goes on even when reclaiming failed

  predicate Holds(p: Phase) { !p.Idle? && !p.Waiting? }

  function Misreads(s: State, fp: string): nat { if fp in s.misreads then s.misreads[fp] else 0 }

  function Release(tokens: nat): nat { if tokens > 0 then tokens - 1 else 0 }

  function Init(n: nat): State {
    State(Store(map[], []), 0, seq(n, i => Idle), map[])
  }

  function Done(s: State, w: nat): State
    requires w < |s.workers|
  {
    s.(workers := s.workers[w := Idle], tokens := Release(s.tokens))
  }

  function Kill(p: Phase): Phase {
    if Holds(p) then p.(dead := true) else p
  }

  /** A worker on its way to a job: the slot, the scan, the disc row and the count. */
  function EarlyStep(s: State, w: nat, a: Action): State
    requires w < |s.workers|
  {
    var p := s.workers[w];
    match a
    case Insert(_) =>
      if !p.Idle? then s
      else if s.tokens == 0 then s.(workers := s.workers[w := Holding(false)], tokens := 1)
      else s.(workers := s.workers[w := Waiting])
    case GetSlot(_) =>
      if p.Waiting? && s.tokens == 0 then s.(workers := s.workers[w := Holding(false)], tokens := 1) else s
    case GiveUp(_) => if p.Waiting? then s.(workers := s.workers[w := Idle]) else s
    case CancelContext(_) => s.(workers := s.workers[w := Kill(p)])
    case ScanOk(_, fp) => if p.Holding? then s.(workers := s.workers[w := Scanned(fp, p.dead)]) else s
    case LookUp(_, ok) =>
      if !p.Scanned? then s
      else if p.dead || !ok || (p.fp in s.store.discs && s.store.discs[p.fp].ripDir != "") then Done(s, w)
      else s.(store := SaveDisc(s.store, p.fp), workers := s.workers[w := Saved(p.fp, p.dead)])
    case ReadAttempts(_, ok) =>
      if !p.Saved? then s
      else if ok && !p.dead then s.(workers := s.workers[w := Counted(p.fp, Attempts(s.store, p.fp), false, false)])
      else s.(workers := s.workers[w := Counted(p.fp, 0, !p.dead, p.dead)],
              misreads := if p.dead then s.misreads else s.misreads[p.fp := Misreads(s, p.fp) + 1])
    case Leave(_) =>
      if Holds(p) && !p.Working? && !p.Noted? then Done(s, w) else s
    case _ => s
  }

  /** A job-state write whose error is discarded. */
  function Written(st: Store, job: nat, state: JobState, ok: bool): Store {
    if ok then SetJobState(st, job, state) else st
  }

  /** A worker with a job, or about to open one.  `ok` says whether the store took the write. */
  function JobStep(s: State, w: nat, a: Action, cap: nat): State
    requires w < |s.workers|
  {
    var p := s.workers[w];
    match a
    case OpenJob(_, ok) =>
      if !p.Counted? then s
      else if p.seen >= cap || p.dead || !ok then Done(s, w)
      else s.(store := CreateJob(s.store, p.fp, p.seen + 1),
          workers := s.workers[w := Working(p.fp, |s.store.jobs| + 1, false)])
    case Progress(_, state) =>
      if p.Working? && !p.dead && Unfinished(state) then s.(store := SetJobState(s.store, p.job, state)) else s
    case StopDecrypt(_, ok) =>
      if p.Working? && p.dead then Done(s, w).(store := Written(s.store, p.job, Cancelled, ok)) else s
    case StopExtract(_, ok) =>
      if p.Working? && p.dead
      then s.(store := Written(s.store, p.job, Cancelled, ok), workers := s.workers[w := Noted(p.fp, p.job, true)])
      else s
    case RecordFailure(_, ok) =>
      if p.Working? || p.Noted? then Done(s, w).(store := Written(s.store, p.job, Failed, ok && !p.dead)) else s
    case RecordRip(_, dir) =>
      if p.Working? && !p.dead && dir != "" then s.(store := SetRipDir(s.store, p.fp, dir)) else s
    case RecordComplete(_, ok) =>
      if p.Working? then Done(s, w).(store := Written(s.store, p.job, Complete, ok && !p.dead)) else s
    case _ => s
  }

  predicate OnJob(a: Action) {
    a.OpenJob? || a.Progress? || a.StopDecrypt? || a.StopExtract? || a.RecordFailure? || a.RecordRip?
        || a.RecordComplete?
  }

  function WorkerStep(s: State, w: nat, a: Action, cap: nat): State
    requires w < |s.workers|
  {
    if OnJob(a) then JobStep(s, w, a, cap) else EarlyStep(s, w, a)
  }

  function Apply(s: State, a: Action, cap: nat): State {
    match a
    case ForgetDisc(fp) => s.(store := Forget(s.store, fp))
    case Restart(reclaimed) =>
      State(if reclaimed then Reclaim(s.store) else s.store, 0, seq(|s.workers|, i => Idle), s.misreads)
    case _ => if a.w < |s.workers| then WorkerStep(s, a.w, a, cap) else s
  }

  function Exec(n: nat, acts: seq<Action>, cap: nat): State {
    if acts == [] then Init(n) else Apply(Exec(n, acts[..|acts| - 1], cap), acts[|acts| - 1], cap)
  }

  // ---------- the slot ----------

  /** At most one worker holds the slot, and the channel has a token exactly when one does. */
  ghost predicate SlotInv(s: State) {
    && s.tokens <= 1
    && (s.tokens == 0 ==> forall w :: 0 <= w < |s.workers| ==> !Holds(s.workers[w]))
    && (s.tokens == 1 ==> exists w :: 0 <= w < |s.workers| && Holds(s.workers[w]))
    && (forall v, w :: 0 <= v < |s.workers| && 0 <= w < |s.workers| ==>
          Holds(s.workers[v]) && Holds(s.workers[w]) ==> v == w)
  }

  /** A step of `w` touches no other worker, and gives or takes only its own hold. */
  ghost predicate OwnStep(s: State, t: State, w: nat) {
    && w < |s.workers| && |t.workers| == |s.workers|
    && (forall v :: 0 <= v < |s.workers| && v != w ==> t.workers[v] == s.workers[v])
    && (Holds(t.workers[w]) && !Holds(s.workers[w]) ==> s.tokens == 0 && t.tokens == 1)
    && (!Holds(t.workers[w]) && Holds(s.workers[w]) ==> t.tokens == Release(s.tokens))
    && (Holds(t.workers[w]) == Holds(s.workers[w]) ==> t.tokens == s.tokens)
  }

  lemma EarlyIsOwn(s: State, w: nat, a: Action)
    requires w < |s.workers|
    ensures OwnStep(s, EarlyStep(s, w, a), w)
  {
  }

  lemma JobIsOwn(s: State, w: nat, a: Action, cap: nat)
    requires w < |s.workers|
    ensures OwnStep(s, JobStep(s, w, a, cap), w)
  {
  }

  lemma OwnStepKeepsSlot(s: State, t: State, w: nat)
    requires SlotInv(s) && OwnStep(s, t, w)
    ensures SlotInv(t)
  {
    if Holds(t.workers[w]) {
      assert t.tokens == 1;
    } else if s.tokens == 1 && !Holds(s.workers[w]) {
      var v :| 0 <= v < |s.workers| && Holds(s.workers[v]);
      assert Holds(t.workers[v]);
    }
  }

  /** What a step of `w` may do to the slot: take a free one, keep its own, or give its own back. */
  lemma SlotStep(s: State, w: nat, a: Action, cap: nat)
    requires SlotInv(s) && w < |s.workers| && !a.ForgetDisc? && !a.Restart?
    ensures SlotInv(WorkerStep(s, w, a, cap)) && OwnStep(s, WorkerStep(s, w, a, cap), w)
  {
    if OnJob(a) {
      JobIsOwn(s, w, a, cap);
    } else {
      EarlyIsOwn(s, w, a);
    }
    OwnStepKeepsSlot(s, WorkerStep(s, w, a, cap), w);
  }

  // ---------- the cap on attempts ----------

  /** What the holder of the slot knows about the store. */
  ghost predicate PhaseInv(s: State, p: Phase, cap: nat) {
    match p
    case Saved(fp, _) => fp in s.store.discs && RipDirOf(s.store, fp) == ""
    case Counted(fp, seen, misread, dead) =>
      && fp in s.store.discs && RipDirOf(s.store, fp) == ""
      && (misread ==> seen == 0 && Attempts(s.store, fp) + 1 <= cap + Misreads(s, fp))
      && (!misread && !dead ==> Attempts(s.store, fp) <= seen)
    case Working(fp, job, dead) =>
      && fp in s.store.discs && 1 <= job <= |s.store.jobs| && s.store.jobs[job - 1].disc == fp
      && Unfinished(s.store.jobs[job - 1].state)
    case Noted(fp, job, dead) =>
      && dead && 1 <= job <= |s.store.jobs|
      && (s.store.jobs[job - 1].state == Cancelled || Unfinished(s.store.jobs[job - 1].state))
    case _ => true
  }

  ghost predicate CapInv(s: State, cap: nat) {
    forall fp: string :: Attempts(s.store, fp) <= cap + Misreads(s, fp)
  }

  /** Forgetting never reaches past the newest job. */
  ghost predicate ForgottenOk(st: Store) {
    forall fp :: fp in st.discs ==> st.discs[fp].forgottenAfter <= |st.jobs|
  }

  ghost predicate Inv(s: State, cap: nat) {
    && SlotInv(s) && CapInv(s, cap) && ForgottenOk(s.store)
    && (forall w :: 0 <= w < |s.workers| ==> PhaseInv(s, s.workers[w], cap))
  }

  /** A job that moves between charged states, or out of them, never charges more. */
  lemma StateChangeCharges(st: Store, id: nat, s: JobState, fp: string)
    requires 1 <= id <= |st.jobs| && (s == Cancelled || st.jobs[id - 1].state != Cancelled)
    ensures Attempts(SetJobState(st, id, s), fp) <= Attempts(st, fp)
    ensures s != Cancelled ==> Attempts(SetJobState(st, id, s), fp) == Attempts(st, fp)
  {
    CountUpdate(st.jobs, id - 1, s, fp, ForgottenAfter(st, fp), NotCancelled());
  }

  lemma ForgetCharges(st: Store, forgotten: string, fp: string)
    ensures Attempts(Forget(st, forgotten), fp) <= Attempts(st, fp)
  {
    if forgotten == fp && fp in st.discs {
      ForgetClearsAttempts(st, fp);
    }
  }

  lemma EarlyKeepsJobs(s: State, w: nat, a: Action)
    requires w < |s.workers|
    ensures EarlyStep(s, w, a).store.jobs == s.store.jobs
    ensures EarlyStep(s, w, a).store.discs == s.store.discs
      || exists fp :: EarlyStep(s, w, a).store == SaveDisc(s.store, fp)
  {
  }

  lemma SavingCharges(st: Store, fp: string, g: string)
    ensures Attempts(SaveDisc(st, fp), g) == Attempts(st, g)
  {
  }

  lemma EarlyCharges(s: State, w: nat, a: Action, fp: string)
    requires w < |s.workers|
    ensures Attempts(EarlyStep(s, w, a).store, fp) == Attempts(s.store, fp)
    ensures Misreads(EarlyStep(s, w, a), fp) >= Misreads(s, fp)
  {
    var t := EarlyStep(s, w, a);
    EarlyKeepsJobs(s, w, a);
    if t.store.discs != s.store.discs {
      var g :| t.store == SaveDisc(s.store, g);
      SavingCharges(s.store, g, fp);
    } else {
      assert t.store == s.store;
    }
  }

  lemma OpenCharges(st: Store, p: Phase, fp: string)
    requires p.Counted?
    ensures Attempts(CreateJob(st, p.fp, p.seen + 1), fp) <= Attempts(st, fp) + if p.fp == fp then 1 else 0
    ensures ForgottenOk(st) && p.fp == fp ==> Attempts(CreateJob(st, fp, p.seen + 1), fp) == Attempts(st, fp) + 1
  {
    CountAppend(st.jobs, Job(p.fp, Pending, p.seen + 1), fp, ForgottenAfter(st, fp), NotCancelled());
  }

  predicate Opens(a: Action, p: Phase, cap: nat) {
    a.OpenJob? && a.ok && p.Counted? && p.seen < cap && !p.dead
  }

  /** Without opening a job the store is left alone, or gets a state or a rip directory. */
  lemma JobWrites(s: State, w: nat, a: Action, cap: nat)
    requires w < |s.workers| && !Opens(a, s.workers[w], cap)
    ensures var st, p := JobStep(s, w, a, cap).store, s.workers[w];
      || st == s.store
      || (p.Working? && a.RecordRip? && a.dir != "" && st == SetRipDir(s.store, p.fp, a.dir))
      || (p.Working? && a.Progress? && Unfinished(a.s) && st == SetJobState(s.store, p.job, a.s))
      || (p.Working? && st == SetJobState(s.store, p.job, Cancelled))
      || ((p.Working? || (p.Noted? && !p.dead)) && st == SetJobState(s.store, p.job, Failed))
      || (p.Working? && st == SetJobState(s.store, p.job, Complete))
  {
  }

  lemma RipDirCharges(st: Store, fp: string, dir: string, g: string)
    ensures Attempts(SetRipDir(st, fp, dir), g) == Attempts(st, g)
  {
  }

  lemma JobCharges(s: State, w: nat, a: Action, cap: nat, fp: string)
    requires w < |s.workers| && PhaseInv(s, s.workers[w], cap) && !Opens(a, s.workers[w], cap)
    ensures Attempts(JobStep(s, w, a, cap).store, fp) <= Attempts(s.store, fp)
  {
    var p := s.workers[w];
    JobWrites(s, w, a, cap);
    if p.Working? {
      if a.RecordRip? {
        RipDirCharges(s.store, p.fp, a.dir, fp);
      }
      if a.Progress? && Unfinished(a.s) {
        StateChangeCharges(s.store, p.job, a.s, fp);
      }
      StateChangeCharges(s.store, p.job, Cancelled, fp);
      StateChangeCharges(s.store, p.job, Failed, fp);
      StateChangeCharges(s.store, p.job, Complete, fp);
    }
  }

  /** Only opening a job charges a disc, and only the disc it is opened for. */
  lemma WorkerCharges(s: State, w: nat, a: Action, cap: nat, fp: string)
    requires w < |s.workers| && PhaseInv(s, s.workers[w], cap)
    ensures var t, p := WorkerStep(s, w, a, cap), s.workers[w];
      && Attempts(t.store, fp) <= Attempts(s.store, fp) + (if Opens(a, p, cap) && p.fp == fp then 1 else 0)
      && Misreads(t, fp) >= Misreads(s, fp)
  {
    var p := s.workers[w];
    if !OnJob(a) {
      EarlyCharges(s, w, a, fp);
    } else if Opens(a, p, cap) {
      OpenCharges(s.store, p, fp);
    } else {
      JobCharges(s, w, a, cap, fp);
    }
  }

  lemma CapStep(s: State, w: nat, a: Action, cap: nat)
    requires Inv(s, cap) && w < |s.workers|
    ensures CapInv(WorkerStep(s, w, a, cap), cap)
  {
    var t, p := WorkerStep(s, w, a, cap), s.workers[w];
    forall fp: string ensures Attempts(t.store, fp) <= cap + Misreads(t, fp) {
      assert Attempts(s.store, fp) <= cap + Misreads(s, fp);
      WorkerCharges(s, w, a, cap, fp);
    }
  }

  lemma OwnPhaseStep(s: State, w: nat, a: Action, cap: nat)
    requires Inv(s, cap) && w < |s.workers|
    ensures PhaseInv(WorkerStep(s, w, a, cap), WorkerStep(s, w, a, cap).workers[w], cap)
  {
    var t, p := WorkerStep(s, w, a, cap), s.workers[w];
    assert PhaseInv(s, p, cap);
    if p.Saved? {
      assert Attempts(s.store, p.fp) <= cap + Misreads(s, p.fp);
    }
  }

  lemma ForgetKeeps(s: State, fp: string, cap: nat)
    requires Inv(s, cap)
    ensures Inv(Apply(s, ForgetDisc(fp), cap), cap)
  {
    var t := Apply(s, ForgetDisc(fp), cap);
    forall g: string ensures Attempts(t.store, g) <= Attempts(s.store, g) {
      ForgetCharges(s.store, fp, g);
    }
    forall w | 0 <= w < |t.workers| ensures PhaseInv(t, t.workers[w], cap) {
      assert PhaseInv(s, s.workers[w], cap);
    }
    MaxJobBound(s.store.jobs, fp);
  }

  lemma RestartKeeps(s: State, reclaimed: bool, cap: nat)
    requires Inv(s, cap)
    ensures Inv(Apply(s, Restart(reclaimed), cap), cap)
  {
    forall g: string ensures Attempts(Reclaim(s.store), g) <= Attempts(s.store, g) {
      StartupAttempts(s.store, g);
    }
  }

  /** No worker forgets a disc or removes a job. */
  lemma ForgottenStep(s: State, w: nat, a: Action, cap: nat)
    requires w < |s.workers| && ForgottenOk(s.store)
    ensures ForgottenOk(WorkerStep(s, w, a, cap).store)
  {
    if OnJob(a) {
      if !Opens(a, s.workers[w], cap) {
        JobWrites(s, w, a, cap);
      }
    } else {
      EarlyKeepsJobs(s, w, a);
    }
  }

  /** A worker without the slot leaves the store alone. */
  lemma OnlyTheHolderWrites(s: State, w: nat, a: Action, cap: nat)
    requires w < |s.workers| && !Holds(s.workers[w])
    ensures WorkerStep(s, w, a, cap).store == s.store && WorkerStep(s, w, a, cap).misreads == s.misreads
  {
  }

  lemma WorkerKeeps(s: State, w: nat, a: Action, cap: nat)
    requires Inv(s, cap) && w < |s.workers| && !a.ForgetDisc? && !a.Restart?
    ensures Inv(WorkerStep(s, w, a, cap), cap)
  {
    var t := WorkerStep(s, w, a, cap);
    SlotStep(s, w, a, cap);
    CapStep(s, w, a, cap);
    OwnPhaseStep(s, w, a, cap);
    ForgottenStep(s, w, a, cap);
    forall v | 0 <= v < |t.workers| && v != w ensures PhaseInv(t, t.workers[v], cap) {
      assert PhaseInv(s, s.workers[v], cap);
      if Holds(s.workers[v]) {
        OnlyTheHolderWrites(s, w, a, cap);
      }
    }
  }

  lemma StepKeeps(s: State, a: Action, cap: nat)
    requires Inv(s, cap)
    ensures Inv(Apply(s, a, cap), cap)
  {
    if a.ForgetDisc? {
      ForgetKeeps(s, a.fp, cap);
    } else if a.Restart? {
      RestartKeeps(s, a.reclaimed, cap);
    } else if a.w < |s.workers| {
      WorkerKeeps(s, a.w, a, cap);
    }
  }

  /** In every interleaving one worker at most holds the slot, and no disc is ever charged
      with more attempts since it was last forgotten than the cap allows, plus one for each
      time the count itself could not be read and was taken for zero. */
  lemma {:induction false} ProtocolHolds(n: nat, acts: seq<Action>, cap: nat)
    ensures Inv(Exec(n, acts, cap), cap)
  {
    if acts != [] {
      ProtocolHolds(n, acts[..|acts| - 1], cap);
      StepKeeps(Exec(n, acts[..|acts| - 1], cap), acts[|acts| - 1], cap);
    }
  }

  /** The one step that takes a disc past the cap: a job is opened for it by a worker that could
      not read its count, when it had used up its attempts exactly. */
  ghost predicate Passes(s: State, a: Action, cap: nat, fp: string) {
    && !a.ForgetDisc? && !a.Restart? && a.w < |s.workers| && Opens(a, s.workers[a.w], cap)
    && s.workers[a.w].fp == fp && s.workers[a.w].misread && Attempts(s.store, fp) == cap
  }

  lemma PassesIff(s: State, a: Action, cap: nat, fp: string)
    requires Inv(s, cap) && Attempts(s.store, fp) <= cap
    ensures Attempts(Apply(s, a, cap).store, fp) > cap <==> Passes(s, a, cap, fp)
  {
    if a.ForgetDisc? {
      ForgetCharges(s.store, a.fp, fp);
    } else if a.Restart? {
      StartupAttempts(s.store, fp);
    } else if a.w < |s.workers| {
      assert PhaseInv(s, s.workers[a.w], cap);
      WorkerPasses(s, a.w, a, cap, fp);
    }
  }

  lemma WorkerPasses(s: State, w: nat, a: Action, cap: nat, fp: string)
    requires w < |s.workers| && PhaseInv(s, s.workers[w], cap) && ForgottenOk(s.store) && Attempts(s.store, fp) <= cap
    ensures var p := s.workers[w];
      Attempts(WorkerStep(s, w, a, cap).store, fp) > cap <==>
      Opens(a, p, cap) && p.fp == fp && p.misread && Attempts(s.store, fp) == cap
  {
    var p := s.workers[w];
    WorkerCharges(s, w, a, cap, fp);
    if Opens(a, p, cap) && p.fp == fp {
      OpenCharges(s.store, p, fp);
      assert WorkerStep(s, w, a, cap).store == CreateJob(s.store, fp, p.seen + 1);
    }
  }

  /** Whether a disc stayed within the cap at every point of a run. */
  ghost predicate WithinCap(n: nat, acts: seq<Action>, cap: nat, fp: string) {
    && Attempts(Exec(n, acts, cap).store, fp) <= cap
    && (acts != [] ==> WithinCap(n, acts[..|acts| - 1], cap, fp))
  }

  /** Whether no step of a run was such a step. */
  ghost predicate NeverPasses(n: nat, acts: seq<Action>, cap: nat, fp: string) {
    acts != [] ==>
      && NeverPasses(n, acts[..|acts| - 1], cap, fp)
      && !Passes(Exec(n, acts[..|acts| - 1], cap), acts[|acts| - 1], cap, fp)
  }

  /** On both paths and in every interleaving, a disc is within the cap throughout if and only
      if no job was ever opened for it at the cap on a count that could not be read. */
  lemma {:induction false} CapKeptIff(n: nat, acts: seq<Action>, cap: nat, fp: string)
    ensures WithinCap(n, acts, cap, fp) <==> NeverPasses(n, acts, cap, fp)
  {
    if acts == [] {
      assert Exec(n, acts, cap).store.jobs == [];
    } else {
      var before, a := acts[..|acts| - 1], acts[|acts| - 1];
      CapKeptIff(n, before, cap, fp);
      ProtocolHolds(n, before, cap);
      if WithinCap(n, before, cap, fp) {
        WithinNow(n, before, cap, fp);
        PassesIff(Exec(n, before, cap), a, cap, fp);
      }
    }
  }

  lemma WithinNow(n: nat, acts: seq<Action>, cap: nat, fp: string)
    requires WithinCap(n, acts, cap, fp)
    ensures Attempts(Exec(n, acts, cap).store, fp) <= cap
  {
  }

  /** No step of one worker frees, takes or changes another worker's hold. */
  lemma ReleaseIsOwn(n: nat, acts: seq<Action>, cap: nat, a: Action, v: nat)
    requires !a.Restart? && !a.ForgetDisc? && v != a.w
    requires v < |Exec(n, acts, cap).workers| && Holds(Exec(n, acts, cap).workers[v])
    ensures var s, t := Exec(n, acts, cap), Apply(Exec(n, acts, cap), a, cap);
      t.workers[v] == s.workers[v] && t.tokens == 1 && s.tokens == 1
  {
    ProtocolHolds(n, acts, cap);
    var s := Exec(n, acts, cap);
    if a.w < |s.workers| {
      SlotStep(s, a.w, a, cap);
      assert Holds(WorkerStep(s, a.w, a, cap).workers[v]);
    }
  }

  /** The slot is never stuck: whoever holds it can end its turn by a step of its own, and then any
      worker that waits can have it, or go without and leave everything as it was. */
  lemma SlotIsNeverStuck(s: State, cap: nat, w: nat) returns (a: Action)
    requires Inv(s, cap) && w < |s.workers| && Holds(s.workers[w])
    ensures var t := Apply(s, a, cap);
      && t.tokens == 0 && |t.workers| == |s.workers| && t.workers == s.workers[w := Idle]
      && forall v: nat :: v < |t.workers| && t.workers[v].Waiting? ==>
           && Apply(t, GetSlot(v), cap) == t.(tokens := 1, workers := t.workers[v := Holding(false)])
           && Apply(t, GiveUp(v), cap) == t.(workers := t.workers[v := Idle])
  {
    a := if s.workers[w].Working? || s.workers[w].Noted? then RecordFailure(w, true) else Leave(w);
    assert s.tokens == 1;
  }

  /** Once its context is cancelled a worker writes nothing but that its job was cancelled. */
  lemma CancelledWritesNothing(s: State, w: nat, b: Action, cap: nat)
    requires w < |s.workers| && Holds(s.workers[w]) && !b.ForgetDisc? && !b.Restart? && b.w == w
    ensures var t := Apply(s, CancelContext(w), cap);
      && t.store == s.store && t.workers[w] == s.workers[w].(dead := true)
      && var after := Apply(t, b, cap).store;
      || after == s.store
      || (s.workers[w].Working? && after == SetJobState(s.store, s.workers[w].job, Cancelled))
  {
    var t := Apply(s, CancelContext(w), cap);
    DeadWrites(t, w, b, cap);
  }

  lemma DeadWrites(t: State, w: nat, b: Action, cap: nat)
    requires w < |t.workers| && Holds(t.workers[w]) && t.workers[w].dead
    ensures var after := WorkerStep(t, w, b, cap).store;
      || after == t.store
      || (t.workers[w].Working? && after == SetJobState(t.store, t.workers[w].job, Cancelled))
  {
  }

  /** A job is cancelled by its own worker, once its context is dead and the store takes it, or by a
      startup that reclaims it, and in no other way. */
  lemma CancelledIff(s: State, a: Action, cap: nat, id: nat)
    requires Inv(s, cap) && 1 <= id <= |s.store.jobs| && s.store.jobs[id - 1].state != Cancelled
    ensures var t := Apply(s, a, cap);
      id <= |t.store.jobs| && (t.store.jobs[id - 1].state == Cancelled <==>
        || (a == Restart(true) && Unfinished(s.store.jobs[id - 1].state))
        || ((a.StopDecrypt? || a.StopExtract?) && a.ok && a.w < |s.workers|
            && s.workers[a.w].Working? && s.workers[a.w].dead && s.workers[a.w].job == id))
  {
    if !a.ForgetDisc? && !a.Restart? && a.w < |s.workers| {
      assert PhaseInv(s, s.workers[a.w], cap);
      if !OnJob(a) {
        EarlyKeepsJobs(s, a.w, a);
      } else {
        CancelledBy(s, a.w, a, cap, id);
      }
    }
  }

  lemma CancelledBy(s: State, w: nat, a: Action, cap: nat, id: nat)
    requires w < |s.workers| && PhaseInv(s, s.workers[w], cap)
    requires 1 <= id <= |s.store.jobs| && s.store.jobs[id - 1].state != Cancelled
    ensures var t, p := JobStep(s, w, a, cap), s.workers[w];
      id <= |t.store.jobs| && (t.store.jobs[id - 1].state == Cancelled <==>
        (a.StopDecrypt? || a.StopExtract?) && a.ok && p.Working? && p.dead && p.job == id)
  {
  }

  // ---------- a disc is ripped once ----------

  /** A look-up lets a worker go on if and only if it got through, the context is alive and the
      disc has no recorded rip; otherwise the slot is given back and the store is untouched. */
  lemma LookUpIff(s: State, w: nat, ok: bool, cap: nat)
    requires w < |s.workers| && s.workers[w].Scanned?
    ensures var t, p := Apply(s, LookUp(w, ok), cap), s.workers[w];
      if ok && !p.dead && RipDirOf(s.store, p.fp) == ""
      then t.workers[w] == Saved(p.fp, false) && t.tokens == s.tokens && p.fp in t.store.discs
        && t.store.jobs == s.store.jobs && forall g: string :: RipDirOf(t.store, g) == RipDirOf(s.store, g)
      else t.workers[w] == Idle && t.tokens == Release(s.tokens) && t.store == s.store
  {
  }

  /** From `st` to `now` a disc with a recorded rip kept one, and no job was opened for it. */
  ghost predicate LeftAlone(st: Store, now: Store, fp: string) {
    && RipDirOf(now, fp) != "" && |st.jobs| <= |now.jobs|
    && forall i :: |st.jobs| <= i < |now.jobs| ==> now.jobs[i].disc != fp
  }

  lemma WorkerLeavesAlone(s: State, w: nat, a: Action, cap: nat, fp: string)
    requires w < |s.workers| && PhaseInv(s, s.workers[w], cap) && RipDirOf(s.store, fp) != ""
    ensures LeftAlone(s.store, WorkerStep(s, w, a, cap).store, fp)
  {
    if !OnJob(a) {
      EarlyKeepsJobs(s, w, a);
    } else if !Opens(a, s.workers[w], cap) {
      JobWrites(s, w, a, cap);
    }
  }

  lemma StepLeavesAlone(s: State, a: Action, cap: nat, fp: string)
    requires Inv(s, cap) && RipDirOf(s.store, fp) != "" && a != ForgetDisc(fp)
    ensures LeftAlone(s.store, Apply(s, a, cap).store, fp)
  {
    if !a.ForgetDisc? && !a.Restart? && a.w < |s.workers| {
      assert PhaseInv(s, s.workers[a.w], cap);
      WorkerLeavesAlone(s, a.w, a, cap, fp);
    }
  }

  lemma {:induction false} LeftAloneStays(n: nat, acts: seq<Action>, more: seq<Action>, cap: nat, st: Store, fp: string)
    requires LeftAlone(st, Exec(n, acts, cap).store, fp) && ForgetDisc(fp) !in more
    ensures LeftAlone(st, Exec(n, acts + more, cap).store, fp)
    decreases |more|
  {
    if more == [] {
      assert acts + more == acts;
    } else {
      var front, a := more[..|more| - 1], more[|more| - 1];
      assert a in more;
      LeftAloneStays(n, acts, front, cap, st, fp);
      LeftAloneOn(n, acts + front, a, cap, st, fp);
      assert acts + more == acts + front + [a];
    }
  }

  /** A disc with a recorded rip is never ripped again: whatever the workers do, on both paths and
      across restarts, no job is opened for it until someone forgets it. */
  lemma RippedOnce(n: nat, acts: seq<Action>, more: seq<Action>, cap: nat, fp: string)
    requires RipDirOf(Exec(n, acts, cap).store, fp) != "" && ForgetDisc(fp) !in more
    ensures LeftAlone(Exec(n, acts, cap).store, Exec(n, acts + more, cap).store, fp)
  {
    LeftAloneStays(n, acts, more, cap, Exec(n, acts, cap).store, fp);
  }

  lemma LeftAloneOn(n: nat, acts: seq<Action>, a: Action, cap: nat, st: Store, fp: string)
    requires LeftAlone(st, Exec(n, acts, cap).store, fp) && a != ForgetDisc(fp)
    ensures LeftAlone(st, Exec(n, acts + [a], cap).store, fp)
  {
    ProtocolHolds(n, acts, cap);
    StepLeavesAlone(Exec(n, acts, cap), a, cap, fp);
    JobsStayAt(Exec(n, acts, cap), a, cap);
    ExecSnoc(n, acts, a, cap);
  }

  /** No step moves a job to another disc, and none removes one. */
  lemma JobsStayAt(s: State, a: Action, cap: nat)
    ensures var t := Apply(s, a, cap);
      && |s.store.jobs| <= |t.store.jobs|
      && forall i :: 0 <= i < |s.store.jobs| ==> t.store.jobs[i].disc == s.store.jobs[i].disc
  {
    if !a.ForgetDisc? && !a.Restart? && a.w < |s.workers| {
      if !OnJob(a) {
        EarlyKeepsJobs(s, a.w, a);
      } else if !Opens(a, s.workers[a.w], cap) {
        JobWrites(s, a.w, a, cap);
      }
    }
  }

  /** The job `t` has and `s` had not is the next attempt of worker `p`'s disc, which had no
      recorded rip: numbered within the cap, above what the disc is charged with unless the count
      could not be read, and then as the first. */
  ghost predicate NextAttempt(s: State, t: State, p: Phase, cap: nat)
    requires p.Counted?
  {
    && RipDirOf(s.store, p.fp) == "" && t.store.discs == s.store.discs
    && |t.store.jobs| == |s.store.jobs| + 1 && t.store.jobs[..|s.store.jobs|] == s.store.jobs
    && var j := t.store.jobs[|s.store.jobs|];
    && j.disc == p.fp && j.state == Pending && 0 < j.attempt <= cap
    && if p.misread then j.attempt == 1 else Attempts(s.store, p.fp) < j.attempt
  }

  lemma OpenStep(s: State, w: nat, cap: nat)
    requires w < |s.workers| && PhaseInv(s, s.workers[w], cap) && Opens(OpenJob(w, true), s.workers[w], cap)
    ensures var t, p := Apply(s, OpenJob(w, true), cap), s.workers[w];
      NextAttempt(s, t, p, cap) && t.workers[w] == Working(p.fp, |s.store.jobs| + 1, false)
  {
    var p := s.workers[w];
    assert Apply(s, OpenJob(w, true), cap).store == CreateJob(s.store, p.fp, p.seen + 1);
  }

  /** In every run, a job is opened only by a worker that still finds no recorded rip of its disc,
      and it is that disc's next attempt. */
  lemma OpenedJob(n: nat, acts: seq<Action>, w: nat, cap: nat)
    requires var s := Exec(n, acts, cap); w < |s.workers| && Opens(OpenJob(w, true), s.workers[w], cap)
    ensures var s, t := Exec(n, acts, cap), Exec(n, acts + [OpenJob(w, true)], cap);
      NextAttempt(s, t, s.workers[w], cap) && t.workers[w] == Working(s.workers[w].fp, |s.store.jobs| + 1, false)
  {
    ProtocolHolds(n, acts, cap);
    ExecSnoc(n, acts, OpenJob(w, true), cap);
    assert PhaseInv(Exec(n, acts, cap), Exec(n, acts, cap).workers[w], cap);
    OpenStep(Exec(n, acts, cap), w, cap);
  }

  // ---------- how jobs end ----------

  lemma JobEndsStay(s: State, w: nat, a: Action, cap: nat, id: nat)
    requires w < |s.workers| && PhaseInv(s, s.workers[w], cap)
    requires 1 <= id <= |s.store.jobs| && !Unfinished(s.store.jobs[id - 1].state)
    ensures var t := JobStep(s, w, a, cap); id <= |t.store.jobs| && t.store.jobs[id - 1] == s.store.jobs[id - 1]
  {
    if !Opens(a, s.workers[w], cap) {
      JobWrites(s, w, a, cap);
    }
  }

  /** A job that has ended is never touched again. */
  lemma EndedStays(s: State, a: Action, cap: nat, id: nat)
    requires Inv(s, cap) && 1 <= id <= |s.store.jobs| && !Unfinished(s.store.jobs[id - 1].state)
    ensures var t := Apply(s, a, cap); id <= |t.store.jobs| && t.store.jobs[id - 1] == s.store.jobs[id - 1]
  {
    if !a.ForgetDisc? && !a.Restart? && a.w < |s.workers| {
      if !OnJob(a) {
        EarlyKeepsJobs(s, a.w, a);
      } else {
        assert PhaseInv(s, s.workers[a.w], cap);
        JobEndsStay(s, a.w, a, cap, id);
      }
    }
  }

  ghost predicate EndedAs(s: State, id: nat, job: Job) {
    1 <= id <= |s.store.jobs| && s.store.jobs[id - 1] == job && !Unfinished(job.state)
  }

  lemma ExecSnoc(n: nat, acts: seq<Action>, a: Action, cap: nat)
    ensures Exec(n, acts + [a], cap) == Apply(Exec(n, acts, cap), a, cap)
  {
    assert (acts + [a])[..|acts|] == acts;
  }

  lemma EndedStep(n: nat, acts: seq<Action>, a: Action, cap: nat, id: nat, job: Job)
    requires EndedAs(Exec(n, acts, cap), id, job)
    ensures EndedAs(Exec(n, acts + [a], cap), id, job)
  {
    ProtocolHolds(n, acts, cap);
    EndedStays(Exec(n, acts, cap), a, cap, id);
    ExecSnoc(n, acts, a, cap);
  }

  lemma {:induction false} EndedIsFinal(n: nat, acts: seq<Action>, more: seq<Action>, cap: nat, id: nat, job: Job)
    requires EndedAs(Exec(n, acts, cap), id, job)
    ensures EndedAs(Exec(n, acts + more, cap), id, job)
    decreases |more|
  {
    if more == [] {
      assert acts + more == acts;
    } else {
      var front, a := more[..|more| - 1], more[|more| - 1];
      EndedIsFinal(n, acts, front, cap, id, job);
      EndedStep(n, acts + front, a, cap, id, job);
      assert acts + more == acts + front + [a];
    }
  }

  /** A cancellation noticed while decrypting or extracting leaves the job cancelled for good, if
      the store took it, although the handler goes on to record an extraction as failed. */
  lemma CancellationSticks(n: nat, acts: seq<Action>, a: Action, more: seq<Action>, cap: nat)
    requires (a.StopDecrypt? || a.StopExtract?) && a.ok
    requires var s := Exec(n, acts, cap); a.w < |s.workers| && s.workers[a.w].Working? && s.workers[a.w].dead
    ensures var id, t := Exec(n, acts, cap).workers[a.w].job, Exec(n, acts + [a] + more, cap);
      1 <= id <= |t.store.jobs| && t.store.jobs[id - 1].state == Cancelled
  {
    var job := CancelledNow(n, acts, a, cap);
    EndedIsFinal(n, acts + [a], more, cap, Exec(n, acts, cap).workers[a.w].job, job);
  }

  /** An outcome the handler records while the context is alive, and the store takes, is the job's
      for good, and frees the slot. */
  lemma OutcomeSticks(n: nat, acts: seq<Action>, a: Action, more: seq<Action>, cap: nat)
    requires (a.RecordFailure? || a.RecordComplete?) && a.ok
    requires var s := Exec(n, acts, cap); a.w < |s.workers| && s.workers[a.w].Working? && !s.workers[a.w].dead
    ensures var id, t := Exec(n, acts, cap).workers[a.w].job, Exec(n, acts + [a] + more, cap);
      1 <= id <= |t.store.jobs| && t.store.jobs[id - 1].state == if a.RecordFailure? then Failed else Complete
    ensures var t := Exec(n, acts + [a], cap); a.w < |t.workers| && t.workers[a.w] == Idle && t.tokens == 0
  {
    var job := RecordedNow(n, acts, a, cap);
    EndedIsFinal(n, acts + [a], more, cap, Exec(n, acts, cap).workers[a.w].job, job);
  }

  lemma RecordedNow(n: nat, acts: seq<Action>, a: Action, cap: nat) returns (job: Job)
    requires (a.RecordFailure? || a.RecordComplete?) && a.ok
    requires var s := Exec(n, acts, cap); a.w < |s.workers| && s.workers[a.w].Working? && !s.workers[a.w].dead
    ensures job.state == if a.RecordFailure? then Failed else Complete
    ensures var t := Exec(n, acts + [a], cap);
      && EndedAs(t, Exec(n, acts, cap).workers[a.w].job, job)
      && a.w < |t.workers| && t.workers[a.w] == Idle && t.tokens == 0
  {
    ProtocolHolds(n, acts, cap);
    ExecSnoc(n, acts, a, cap);
    job := Recorded(Exec(n, acts, cap), a, cap);
  }

  lemma Recorded(s: State, a: Action, cap: nat) returns (job: Job)
    requires Inv(s, cap) && (a.RecordFailure? || a.RecordComplete?) && a.ok
    requires a.w < |s.workers| && s.workers[a.w].Working? && !s.workers[a.w].dead
    ensures job.state == (if a.RecordFailure? then Failed else Complete)
    ensures var t := Apply(s, a, cap);
      EndedAs(t, s.workers[a.w].job, job) && t.workers[a.w] == Idle && t.tokens == 0
  {
    var p := s.workers[a.w];
    assert PhaseInv(s, p, cap);
    job := s.store.jobs[p.job - 1].(state := if a.RecordFailure? then Failed else Complete);
  }

  /** How far a job has got shows while its context is alive. */
  lemma ProgressShows(n: nat, acts: seq<Action>, w: nat, state: JobState, cap: nat)
    requires Unfinished(state)
    requires var s := Exec(n, acts, cap); w < |s.workers| && s.workers[w].Working? && !s.workers[w].dead
    ensures var id, t := Exec(n, acts, cap).workers[w].job, Exec(n, acts + [Progress(w, state)], cap);
      1 <= id <= |t.store.jobs| && t.store.jobs[id - 1].state == state
  {
    ProtocolHolds(n, acts, cap);
    assert PhaseInv(Exec(n, acts, cap), Exec(n, acts, cap).workers[w], cap);
    ExecSnoc(n, acts, Progress(w, state), cap);
  }

  lemma RecordStep(s: State, w: nat, dir: string, cap: nat)
    requires w < |s.workers| && s.workers[w].Working? && !s.workers[w].dead && s.workers[w].fp in s.store.discs
    requires dir != ""
    ensures Apply(s, RecordRip(w, dir), cap).store == SetRipDir(s.store, s.workers[w].fp, dir)
  {
  }

  /** A rip recorded while the context is alive is where the next look-up finds it. */
  lemma RecordedRipIsFound(n: nat, acts: seq<Action>, w: nat, dir: string, cap: nat)
    requires dir != ""
    requires var s := Exec(n, acts, cap);
      w < |s.workers| && s.workers[w].Working? && !s.workers[w].dead
    ensures var s, t := Exec(n, acts, cap), Exec(n, acts + [RecordRip(w, dir)], cap);
      RipDirOf(t.store, s.workers[w].fp) == dir
      && forall g: string :: g != s.workers[w].fp ==> RipDirOf(t.store, g) == RipDirOf(s.store, g)
  {
    ProtocolHolds(n, acts, cap);
    assert PhaseInv(Exec(n, acts, cap), Exec(n, acts, cap).workers[w], cap);
    RecordStep(Exec(n, acts, cap), w, dir, cap);
    ExecSnoc(n, acts, RecordRip(w, dir), cap);
  }

  lemma CancelledNow(n: nat, acts: seq<Action>, a: Action, cap: nat) returns (job: Job)
    requires (a.StopDecrypt? || a.StopExtract?) && a.ok
    requires var s := Exec(n, acts, cap); a.w < |s.workers| && s.workers[a.w].Working? && s.workers[a.w].dead
    ensures job.state == Cancelled
    ensures EndedAs(Exec(n, acts + [a], cap), Exec(n, acts, cap).workers[a.w].job, job)
  {
    ProtocolHolds(n, acts, cap);
    job := Noticed(Exec(n, acts, cap), a, cap);
    ExecSnoc(n, acts, a, cap);
  }

  lemma Noticed(s: State, a: Action, cap: nat) returns (job: Job)
    requires Inv(s, cap) && (a.StopDecrypt? || a.StopExtract?) && a.ok
    requires a.w < |s.workers| && s.workers[a.w].Working? && s.workers[a.w].dead
    ensures job.state == Cancelled && EndedAs(Apply(s, a, cap), s.workers[a.w].job, job)
  {
    var p := s.workers[a.w];
    assert PhaseInv(s, p, cap);
    job := s.store.jobs[p.job - 1].(state := Cancelled);
    assert Apply(s, a, cap).store == SetJobState(s.store, p.job, Cancelled);
  }

  /** Job `id` is unfinished and nobody will record how it ended: no worker has it, or only one
      that has nothing left to do but fail to record it. */
  ghost predicate Orphan(s: State, id: nat) {
    && 1 <= id <= |s.store.jobs| && Unfinished(s.store.jobs[id - 1].state)
    && forall w :: 0 <= w < |s.workers| ==> !OnJobNumber(s.workers[w], id)
  }

  predicate OnJobNumber(p: Phase, id: nat) { (p.Working? && p.job == id) || (p.Noted? && !p.dead && p.job == id) }

  /** The step ends worker `p`'s work on its job with nothing recorded: the context was dead, or
      the store did not take the write. */
  predicate Unrecorded(p: Phase, a: Action) {
    && p.Working?
    && (((a.RecordFailure? || a.RecordComplete?) && (p.dead || !a.ok))
        || ((a.StopDecrypt? || a.StopExtract?) && p.dead && !a.ok))
  }

  lemma InterruptedIsOrphan(s: State, a: Action, cap: nat)
    requires Inv(s, cap) && (a.RecordFailure? || a.RecordComplete? || a.StopDecrypt? || a.StopExtract?)
    requires a.w < |s.workers| && Unrecorded(s.workers[a.w], a)
    ensures Orphan(Apply(s, a, cap), s.workers[a.w].job)
  {
    assert PhaseInv(s, s.workers[a.w], cap);
    assert Apply(s, a, cap).store == s.store;
    assert forall v :: 0 <= v < |s.workers| && v != a.w ==> !Holds(s.workers[v]);
  }

  lemma WorkerKeepsOrphan(s: State, w: nat, a: Action, cap: nat, id: nat)
    requires Orphan(s, id) && w < |s.workers|
    ensures Orphan(WorkerStep(s, w, a, cap), id)
  {
    var t := WorkerStep(s, w, a, cap);
    assert !OnJobNumber(s.workers[w], id);
    if !OnJob(a) {
      EarlyKeepsJobs(s, w, a);
      assert !OnJobNumber(t.workers[w], id);
    } else {
      if !Opens(a, s.workers[w], cap) {
        JobWrites(s, w, a, cap);
      }
      assert !OnJobNumber(t.workers[w], id);
    }
    assert forall v :: 0 <= v < |s.workers| && v != w ==> t.workers[v] == s.workers[v];
  }

  lemma StepKeepsOrphan(s: State, a: Action, cap: nat, id: nat)
    requires Orphan(s, id) && a != Restart(true)
    ensures Orphan(Apply(s, a, cap), id)
  {
    if !a.ForgetDisc? && !a.Restart? && a.w < |s.workers| {
      WorkerKeepsOrphan(s, a.w, a, cap, id);
    }
  }

  lemma OrphanStep(n: nat, acts: seq<Action>, a: Action, cap: nat, id: nat)
    requires Orphan(Exec(n, acts, cap), id) && a != Restart(true)
    ensures Orphan(Exec(n, acts + [a], cap), id)
  {
    StepKeepsOrphan(Exec(n, acts, cap), a, cap, id);
    ExecSnoc(n, acts, a, cap);
  }

  lemma {:induction false} OrphanStays(n: nat, acts: seq<Action>, more: seq<Action>, cap: nat, id: nat)
    requires Orphan(Exec(n, acts, cap), id) && Restart(true) !in more
    ensures Orphan(Exec(n, acts + more, cap), id)
    decreases |more|
  {
    if more == [] {
      assert acts + more == acts;
    } else {
      var front, a := more[..|more| - 1], more[|more| - 1];
      assert a in more;
      OrphanStays(n, acts, front, cap, id);
      OrphanStep(n, acts + front, a, cap, id);
      assert acts + more == acts + front + [a];
    }
  }

  lemma ReclaimedOrphan(s: State, cap: nat, id: nat) returns (job: Job)
    requires Orphan(s, id)
    ensures EndedAs(Apply(s, Restart(true), cap), id, job) && job.state == Cancelled
  {
    job := Reclaim(s.store).jobs[id - 1];
  }

  /** Any other interruption of a job, and any outcome the store would not take, leaves it
      unfinished whatever the other workers, forgets
      and failed startups do meanwhile, until the next startup that reclaims cancels it, and
      then for good. */
  lemma OtherInterruptionsAreReclaimed(n: nat, acts: seq<Action>, a: Action, more: seq<Action>, rest: seq<Action>,
      cap: nat, id: nat)
    requires (a.RecordFailure? || a.RecordComplete? || a.StopDecrypt? || a.StopExtract?) && Restart(true) !in more
    requires var s := Exec(n, acts, cap);
      a.w < |s.workers| && Unrecorded(s.workers[a.w], a) && s.workers[a.w].job == id
    ensures Orphan(Exec(n, acts + [a] + more, cap), id)
    ensures CancelledJob(Exec(n, acts + [a] + more + [Restart(true)] + rest, cap), id)
  {
    OrphanedNow(n, acts, a, cap);
    OrphanStays(n, acts + [a], more, cap, id);
    ReclaimedForGood(n, acts + [a] + more, rest, cap, id);
  }

  predicate CancelledJob(s: State, id: nat) {
    1 <= id <= |s.store.jobs| && s.store.jobs[id - 1].state == Cancelled
  }

  lemma OrphanedNow(n: nat, acts: seq<Action>, a: Action, cap: nat)
    requires a.RecordFailure? || a.RecordComplete? || a.StopDecrypt? || a.StopExtract?
    requires var s := Exec(n, acts, cap); a.w < |s.workers| && Unrecorded(s.workers[a.w], a)
    ensures Orphan(Exec(n, acts + [a], cap), Exec(n, acts, cap).workers[a.w].job)
  {
    ProtocolHolds(n, acts, cap);
    InterruptedIsOrphan(Exec(n, acts, cap), a, cap);
    ExecSnoc(n, acts, a, cap);
  }

  lemma ReclaimedForGood(n: nat, acts: seq<Action>, rest: seq<Action>, cap: nat, id: nat)
    requires Orphan(Exec(n, acts, cap), id)
    ensures CancelledJob(Exec(n, acts + [Restart(true)] + rest, cap), id)
  {
    var job := ReclaimedOrphan(Exec(n, acts, cap), cap, id);
    ExecSnoc(n, acts, Restart(true), cap);
    EndedIsFinal(n, acts + [Restart(true)], rest, cap, id, job);
  }

  /** `t` is what a startup makes of `s`: nobody is at work; and, if it reclaimed, every job has
      ended and a disc is charged with exactly the jobs it completed, failed or duplicated
      since it was last forgotten, where otherwise it is charged as before. */
  ghost predicate StartedFrom(s: State, t: State, reclaimed: bool, fp: string) {
    && (forall w :: 0 <= w < |t.workers| ==> t.workers[w] == Idle)
    && (reclaimed ==> forall j :: j in t.store.jobs ==> !Unfinished(j.state))
    && (reclaimed ==> Attempts(t.store, fp) == Count(s.store.jobs, fp, ForgottenAfter(s.store, fp), Concluded()))
    && (!reclaimed ==> t.store == s.store)
  }

  lemma StartupStep(s: State, reclaimed: bool, cap: nat, fp: string)
    ensures StartedFrom(s, Apply(s, Restart(reclaimed), cap), reclaimed, fp)
  {
    StartupAttempts(s.store, fp);
  }

  /** Right after any startup, in every run. */
  lemma StartupIsExact(n: nat, acts: seq<Action>, reclaimed: bool, cap: nat, fp: string)
    ensures StartedFrom(Exec(n, acts, cap), Exec(n, acts + [Restart(reclaimed)], cap), reclaimed, fp)
  {
    ExecSnoc(n, acts, Restart(reclaimed), cap);
    StartupStep(Exec(n, acts, cap), reclaimed, cap, fp);
  }

  lemma Then(n: nat, acts: seq<Action>, s: State, a: Action, cap: nat) returns (acts': seq<Action>, t: State)
    requires Exec(n, acts, cap) == s
    ensures t == Apply(s, a, cap) && Exec(n, acts', cap) == t
  {
    acts', t := acts + [a], Apply(s, a, cap);
    assert acts'[..|acts|] == acts;
  }

  /** One insertion of disc `fp` by a lone worker, as far as an open job. */
  lemma Round(acts: seq<Action>, s: State, fp: string, readOk: bool) returns (acts': seq<Action>, t: State)
    requires Exec(1, acts, 1) == s && s.workers == [Idle] && s.tokens == 0
    requires fp in s.store.discs ==> s.store.discs[fp] == Disc("", 0)
    requires readOk ==> Attempts(SaveDisc(s.store, fp), fp) == 0
    ensures Exec(1, acts', 1) == t && t.workers == [Working(fp, |s.store.jobs| + 1, false)] && t.tokens == 1
    ensures t.store == CreateJob(SaveDisc(s.store, fp), fp, 1)
  {
    acts', t := ScanAndSave(acts, s, fp);
    acts', t := CountAndOpen(acts', t, fp, SaveDisc(s.store, fp), readOk);
  }

  lemma CountAndOpen(acts: seq<Action>, s: State, fp: string, store: Store, readOk: bool)
    returns (acts': seq<Action>, t: State)
    requires Exec(1, acts, 1) == s && s.workers == [Saved(fp, false)] && s.store == store && s.tokens == 1
    requires readOk ==> Attempts(store, fp) == 0
    ensures Exec(1, acts', 1) == t && t.workers == [Working(fp, |store.jobs| + 1, false)] && t.tokens == 1
    ensures t.store == CreateJob(store, fp, 1)
  {
    acts', t := CountOnce(acts, s, fp, store, readOk);
    acts', t := OpenFirst(acts', t, fp, store, !readOk);
  }

  lemma CountOnce(acts: seq<Action>, s: State, fp: string, store: Store, readOk: bool)
    returns (acts': seq<Action>, t: State)
    requires Exec(1, acts, 1) == s && s.workers == [Saved(fp, false)] && s.store == store && s.tokens == 1
    requires readOk ==> Attempts(store, fp) == 0
    ensures Exec(1, acts', 1) == t && t.workers == [Counted(fp, 0, !readOk, false)] && t.store == store && t.tokens == 1
  {
    var next := CountStep(s, fp, readOk);
    acts', t := SoloStep(acts, s, ReadAttempts(0, readOk), next);
  }

  lemma CountStep(s: State, fp: string, readOk: bool) returns (next: State)
    requires s.workers == [Saved(fp, false)] && (readOk ==> Attempts(s.store, fp) == 0)
    ensures next == WorkerStep(s, 0, ReadAttempts(0, readOk), 1)
    ensures next.store == s.store && next.tokens == s.tokens && next.workers == [Counted(fp, 0, !readOk, false)]
  {
    next := EarlyStep(s, 0, ReadAttempts(0, readOk));
    assert s.workers[0] == Saved(fp, false);
    assert s.workers[0 := Counted(fp, 0, !readOk, false)] == [Counted(fp, 0, !readOk, false)];
  }

  lemma OpenFirst(acts: seq<Action>, s: State, fp: string, store: Store, misread: bool)
    returns (acts': seq<Action>, t: State)
    requires Exec(1, acts, 1) == s && s.workers == [Counted(fp, 0, misread, false)] && s.store == store && s.tokens == 1
    ensures Exec(1, acts', 1) == t && t.workers == [Working(fp, |store.jobs| + 1, false)] && t.tokens == 1
    ensures t.store == CreateJob(store, fp, 1)
  {
    acts', t := SoloStep(acts, s, OpenJob(0, true),
                  State(CreateJob(store, fp, 1), 1, [Working(fp, |store.jobs| + 1, false)], s.misreads));
  }

  lemma ScanAndSave(acts: seq<Action>, s: State, fp: string) returns (acts': seq<Action>, t: State)
    requires Exec(1, acts, 1) == s && s.workers == [Idle] && s.tokens == 0
    requires fp in s.store.discs ==> s.store.discs[fp] == Disc("", 0)
    ensures Exec(1, acts', 1) == t && t == State(SaveDisc(s.store, fp), 1, [Saved(fp, false)], s.misreads)
  {
    InsertStep(s);
    acts', t := SoloStep(acts, s, Insert(0), State(s.store, 1, [Holding(false)], s.misreads));
    ScanStep(t, fp);
    acts', t := SoloStep(acts', t, ScanOk(0, fp), State(s.store, 1, [Scanned(fp, false)], s.misreads));
    SaveStep(t, fp);
    acts', t := SoloStep(acts', t, LookUp(0, true), State(SaveDisc(s.store, fp), 1, [Saved(fp, false)], s.misreads));
  }

  lemma InsertStep(s: State)
    requires s.workers == [Idle] && s.tokens == 0
    ensures WorkerStep(s, 0, Insert(0), 1) == State(s.store, 1, [Holding(false)], s.misreads)
  {
    assert s.workers[0 := Holding(false)] == [Holding(false)];
  }

  lemma ScanStep(s: State, fp: string)
    requires s.workers == [Holding(false)]
    ensures WorkerStep(s, 0, ScanOk(0, fp), 1) == State(s.store, s.tokens, [Scanned(fp, false)], s.misreads)
  {
    assert s.workers[0 := Scanned(fp, false)] == [Scanned(fp, false)];
  }

  lemma SaveStep(s: State, fp: string)
    requires s.workers == [Scanned(fp, false)] && (fp in s.store.discs ==> s.store.discs[fp] == Disc("", 0))
    ensures WorkerStep(s, 0, LookUp(0, true), 1)
        == State(SaveDisc(s.store, fp), s.tokens, [Saved(fp, false)], s.misreads)
  {
    assert s.workers[0 := Saved(fp, false)] == [Saved(fp, false)];
  }

  lemma SoloStep(acts: seq<Action>, s: State, a: Action, next: State) returns (acts': seq<Action>, t: State)
    requires Exec(1, acts, 1) == s && !a.ForgetDisc? && !a.Restart? && a.w == 0
    requires |s.workers| == 1 && WorkerStep(s, 0, a, 1) == next
    ensures Exec(1, acts', 1) == t && t == next
  {
    acts', t := Then(1, acts, s, a, 1);
  }

  /** After the first round, and after its failure was recorded. */
  lemma FailedOnce(fp: string) returns (acts: seq<Action>, s: State)
    ensures Exec(1, acts, 1) == s && s.workers == [Idle] && s.tokens == 0
    ensures s.store == Store(map[fp := Disc("", 0)], [Job(fp, Failed, 1)])
  {
    acts, s := [], Init(1);
    var store := Store(map[fp := Disc("", 0)], []);
    assert SaveDisc(s.store, fp) == store;
    acts, s := Round(acts, s, fp, true);
    assert s.store.jobs == [Job(fp, Pending, 1)];
    var failed := store.(jobs := [Job(fp, Failed, 1)]);
    acts, s := SoloStep(acts, s, RecordFailure(0, true), State(failed, 0, [Idle], s.misreads));
  }

  /** The cap really is passed when the count cannot be read: with a cap of one, a disc that
      failed once is tried and charged again. */
  lemma UnreadableCountPassesTheCap(fp: string) returns (acts: seq<Action>)
    ensures Attempts(Exec(1, acts, 1).store, fp) == 2
  {
    var s: State;
    acts, s := FailedOnce(fp);
    acts, s := Round(acts, s, fp, false);
    ChargedTwice(fp, s.store);
  }

  lemma ChargedTwice(fp: string, st: Store)
    requires st.jobs == [Job(fp, Failed, 1)] + [Job(fp, Pending, 1)] && ForgottenAfter(st, fp) == 0
    ensures Attempts(st, fp) == 2
  {
    var failed, again, counts := Job(fp, Failed, 1), Job(fp, Pending, 1), NotCancelled();
    assert Count([], fp, 0, counts) == 0;
    CountAppend([], failed, fp, 0, counts);
    assert [] + [failed] == [failed];
    assert Count([failed], fp, 0, counts) == 1;
    CountAppend([failed], again, fp, 0, counts);
    assert Count(st.jobs, fp, 0, counts) == 2;
  }
}
