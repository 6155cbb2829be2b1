/** The discs and jobs tables as the rip workers use them. */
module RipStore {
  datatype JobState = Pending | Scanning | Ripping | Verifying | Complete | Failed | Duplicate | Cancelled

  datatype Job = Job(disc: string, state: JobState, attempt: nat)

  /** A disc is known by its fingerprint; an empty `ripDir` means it has no finished rip. */
  datatype Disc = Disc(ripDir: string, forgottenAfter: nat)

  /** Job ids count from 1 and jobs are never deleted, so job `id` is `jobs[id - 1]`. */
  datatype Store = Store(discs: map<string, Disc>, jobs: seq<Job>)

  predicate Unfinished(s: JobState) {
    s == Pending || s == Scanning || s == Ripping || s == Verifying
  }

  /** COUNT(*) of the jobs of `fp` with an id above `after` that satisfy `counts`. */
  function Count(jobs: seq<Job>, fp: string, after: nat, counts: JobState -> bool): nat {
    if jobs == [] then 0
    else
      var n := |jobs|;
      Count(jobs[..n - 1], fp, after, counts)
      + if jobs[n - 1].disc == fp && n > after && counts(jobs[n - 1].state) then 1 else 0
  }

  function ForgottenAfter(st: Store, fp: string): nat {
    if fp in st.discs then st.discs[fp].forgottenAfter else 0
  }

  /** Where a disc's finished rip is, or nothing. */
  function RipDirOf(st: Store, fp: string): string { if fp in st.discs then st.discs[fp].ripDir else "" }

  function NotCancelled(): JobState -> bool { (s: JobState) => s != Cancelled }

  function Concluded(): JobState -> bool { (s: JobState) => s == Complete || s == Failed || s == Duplicate }

  /** The attempts charged to a disc. */
  function Attempts(st: Store, fp: string): nat {
    Count(st.jobs, fp, ForgottenAfter(st, fp), NotCancelled())
  }

  function MaxJob(jobs: seq<Job>, fp: string): nat {
    if jobs == [] then 0 else if jobs[|jobs| - 1].disc == fp then |jobs| else MaxJob(jobs[..|jobs| - 1], fp)
  }

  function SaveDisc(st: Store, fp: string): Store {
    if fp in st.discs then st else st.(discs := st.discs[fp := Disc("", 0)])
  }

  function CreateJob(st: Store, fp: string, attempt: nat): Store {
    st.(jobs := st.jobs + [Job(fp, Pending, attempt)])
  }

  function SetJobState(st: Store, id: nat, s: JobState): Store {
    if 1 <= id <= |st.jobs| then st.(jobs := st.jobs[id - 1 := st.jobs[id - 1].(state := s)]) else st
  }

  function SetRipDir(st: Store, fp: string, dir: string): Store {
    if fp in st.discs then st.(discs := st.discs[fp := st.discs[fp].(ripDir := dir)]) else st
  }

  function Forget(st: Store, fp: string): Store {
    if fp in st.discs then st.(discs := st.discs[fp := Disc("", MaxJob(st.jobs, fp))]) else st
  }

  function Reclaim(st: Store): Store {
    st.(jobs := seq(|st.jobs|, i requires 0 <= i < |st.jobs| =>
      if Unfinished(st.jobs[i].state) then st.jobs[i].(state := Cancelled) else st.jobs[i]))
  }

  lemma {:induction false} CountAppend(jobs: seq<Job>, j: Job, fp: string, after: nat, counts: JobState -> bool)
    ensures Count(jobs + [j], fp, after, counts) ==
      Count(jobs, fp, after, counts) + if j.disc == fp && |jobs| + 1 > after && counts(j.state) then 1 else 0
  {
    assert (jobs + [j])[..|jobs|] == jobs;
  }

  /** Changing one job's state moves the count by that job alone. */
  lemma {:induction false} CountUpdate(jobs: seq<Job>, i: nat, s: JobState, fp: string, after: nat,
      counts: JobState -> bool)
    requires i < |jobs|
    ensures Count(jobs[i := jobs[i].(state := s)], fp, after, counts)
      + (if jobs[i].disc == fp && i + 1 > after && counts(jobs[i].state) then 1 else 0)
      == Count(jobs, fp, after, counts)
      + (if jobs[i].disc == fp && i + 1 > after && counts(s) then 1 else 0)
    decreases |jobs|
  {
    var n, after' := |jobs|, jobs[i := jobs[i].(state := s)];
    if i == n - 1 {
      assert after'[..n - 1] == jobs[..n - 1];
    } else {
      CountUpdate(jobs[..n - 1], i, s, fp, after, counts);
      assert after'[..n - 1] == jobs[..n - 1][i := jobs[i].(state := s)];
    }
  }

  lemma {:induction false} MaxJobBound(jobs: seq<Job>, fp: string)
    ensures MaxJob(jobs, fp) <= |jobs|
  {
    if jobs != [] {
      MaxJobBound(jobs[..|jobs| - 1], fp);
    }
  }

  /** Forgetting a disc forgets its attempts, whatever the jobs were. */
  lemma {:induction false} ForgottenJobs(jobs: seq<Job>, fp: string, after: nat, counts: JobState -> bool)
    requires after >= MaxJob(jobs, fp)
    ensures Count(jobs, fp, after, counts) == 0
  {
    if jobs != [] {
      if jobs[|jobs| - 1].disc != fp {
        ForgottenJobs(jobs[..|jobs| - 1], fp, after, counts);
      } else {
        AllBefore(jobs, fp, after, counts);
      }
    }
  }

  lemma {:induction false} AllBefore(jobs: seq<Job>, fp: string, after: nat, counts: JobState -> bool)
    requires after >= |jobs|
    ensures Count(jobs, fp, after, counts) == 0
  {
    if jobs != [] {
      AllBefore(jobs[..|jobs| - 1], fp, after, counts);
    }
  }

  lemma ForgetClearsAttempts(st: Store, fp: string)
    requires fp in st.discs
    ensures Attempts(Forget(st, fp), fp) == 0 && Forget(st, fp).discs[fp].ripDir == ""
    ensures Forget(st, fp).jobs == st.jobs
  {
    ForgottenJobs(st.jobs, fp, MaxJob(st.jobs, fp), NotCancelled());
  }

  /** A restart cancels what was in flight, so what stays charged to a disc is exactly what
      it completed, failed or was found to duplicate since it was last forgotten. */
  lemma {:induction false} ReclaimCounts(jobs: seq<Job>, fp: string, after: nat)
    ensures Count(Reclaim(Store(map[], jobs)).jobs, fp, after, NotCancelled()) == Count(jobs, fp, after, Concluded())
  {
    if jobs != [] {
      var n := |jobs|;
      ReclaimCounts(jobs[..n - 1], fp, after);
      assert Reclaim(Store(map[], jobs)).jobs[..n - 1] == Reclaim(Store(map[], jobs[..n - 1])).jobs;
    }
  }

  lemma StartupAttempts(st: Store, fp: string)
    ensures Attempts(Reclaim(st), fp) == Count(st.jobs, fp, ForgottenAfter(st, fp), Concluded())
    ensures Attempts(Reclaim(st), fp) <= Attempts(st, fp)
  {
    ReclaimCounts(st.jobs, fp, ForgottenAfter(st, fp));
    assert Reclaim(Store(map[], st.jobs)).jobs == Reclaim(st).jobs;
    CountMonotone(st.jobs, fp, ForgottenAfter(st, fp));
  }

  lemma {:induction false} CountMonotone(jobs: seq<Job>, fp: string, after: nat)
    ensures Count(jobs, fp, after, Concluded()) <= Count(jobs, fp, after, NotCancelled())
  {
    if jobs != [] {
      CountMonotone(jobs[..|jobs| - 1], fp, after);
    }
  }
}
