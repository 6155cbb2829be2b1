/** The transcode queue: one row per (disc, title), one runner, and a budget of attempts
    that claims charge and cancellations and restarts give back. */
module Transcode {
  import opened Text

  datatype RowState = Pending | Running | Complete | Failed

  datatype Row = Row(state: RowState, attempt: nat, createdAt: int, source: string, output: string)

  /** Rows are unique per disc and title and never deleted, so the pair stands for the row id. */
  datatype Key = Key(disc: int, title: int)

  type Table = map<Key, Row>

  // ---------- the statements, each one atomic ----------

  function Queued(rows: Table, k: Key, now: int, source: string): Table {
    rows[k := if k in rows then rows[k].(state := Pending, createdAt := now, source := source)
              else Row(Pending, 0, now, source, "")]
  }

  /** A Blu-ray encode recorded after the fact. */
  function Recorded(rows: Table, k: Key, now: int, source: string, output: string): Table {
    rows[k := if k in rows then rows[k].(state := Complete, source := source, output := output)
              else Row(Complete, 0, now, source, output)]
  }

  function Refund(attempt: nat): nat { if attempt == 0 then 0 else attempt - 1 }

  function Update(rows: Table, k: Key, f: Row -> Row): Table {
    if k in rows then rows[k := f(rows[k])] else rows
  }

  function Claimed(rows: Table, k: Key): Table {
    Update(rows, k, (r: Row) => r.(state := Running, attempt := r.attempt + 1))
  }

  function Finished(rows: Table, k: Key, output: string): Table {
    Update(rows, k, (r: Row) => r.(state := Complete, output := output))
  }

  function FailedRow(rows: Table, k: Key): Table {
    Update(rows, k, (r: Row) => r.(state := Failed))
  }

  function Requeued(rows: Table, k: Key): Table {
    Update(rows, k, (r: Row) => r.(state := Pending, attempt := Refund(r.attempt)))
  }

  function Reclaimed(rows: Table): Table {
    map k | k in rows ::
      if rows[k].state == Running then rows[k].(state := Pending, attempt := Refund(rows[k].attempt)) else rows[k]
  }

  function ResetRow(rows: Table, k: Key): Table {
    Update(rows, k, (r: Row) => r.(state := Pending, attempt := 0))
  }

  predicate Claimable(rows: Table, discs: set<int>, k: Key, budget: nat) {
    k in rows && rows[k].state == Pending && rows[k].attempt < budget && k.disc in discs
  }

  /** ORDER BY created_at, title_index; rows of different discs may tie. */
  predicate NotAfter(rows: Table, a: Key, b: Key) {
    && a in rows && b in rows
    && (rows[a].createdAt < rows[b].createdAt || (rows[a].createdAt == rows[b].createdAt && a.title <= b.title))
  }

  ghost predicate IsNext(rows: Table, discs: set<int>, k: Key, budget: nat) {
    && Claimable(rows, discs, k, budget)
    && forall j :: Claimable(rows, discs, j, budget) ==> NotAfter(rows, k, j)
  }

  // ---------- what the statements mean for one another ----------

  /** Cancelling gives back exactly what claiming took: the table is as it was before the claim.
      So does a restart, when nothing else was running. */
  lemma RequeueUndoesClaim(rows: Table, discs: set<int>, k: Key, budget: nat)
    requires Claimable(rows, discs, k, budget)
    ensures Requeued(Claimed(rows, k), k) == rows
    ensures (forall j :: j in rows ==> rows[j].state != Running) ==> Reclaimed(Claimed(rows, k)) == rows
  {
    var claimed := Claimed(rows, k);
    assert claimed[k := rows[k]] == rows;
    if forall j :: j in rows ==> rows[j].state != Running {
      assert Reclaimed(claimed).Keys == rows.Keys;
      forall j | j in rows ensures Reclaimed(claimed)[j] == rows[j] {
        assert j != k ==> claimed[j] == rows[j];
      }
    }
  }

  /** Queuing makes a row claimable exactly when its budget is not used up: a title that has
      spent its attempts gets none back by being queued again.  It waits from now on, with the new
      source, and what it produced before stays on record.  No other row is touched. */
  lemma QueueBuysNothing(rows: Table, discs: set<int>, k: Key, now: int, source: string, budget: nat)
    ensures var after := Queued(rows, k, now, source);
      && (Claimable(after, discs, k, budget) <==>
          k.disc in discs && (if k in rows then rows[k].attempt else 0) < budget)
      && after[k].state == Pending && after[k].source == source && after[k].createdAt == now
      && (k in rows ==> after[k].attempt == rows[k].attempt && after[k].output == rows[k].output)
      && forall j :: j != k ==> (j in after <==> j in rows) && (j in rows ==> after[j] == rows[j])
  {
  }

  /** An outcome takes the row out of the queue with its charge, and a failed title queued again
      can be claimed exactly while it has attempts left.  No other row is touched. */
  lemma OutcomeRetires(rows: Table, discs: set<int>, k: Key, output: string, now: int, source: string, budget: nat)
    requires k in rows
    ensures var done, failed := Finished(rows, k, output), FailedRow(rows, k);
      && !Claimable(done, discs, k, budget) && !Claimable(failed, discs, k, budget)
      && done[k].attempt == failed[k].attempt == rows[k].attempt && done[k].output == output
      && (Claimable(Queued(failed, k, now, source), discs, k, budget) <==> k.disc in discs && rows[k].attempt < budget)
      && forall j :: j in rows && j != k ==> done[j] == rows[j] && failed[j] == rows[j]
  {
  }

  /** A Blu-ray encode recorded after the fact is done and not to be run, with its files and, if the
      title had a row, that row's attempts and age.  No other row is touched. */
  lemma RecordingIsDone(rows: Table, discs: set<int>, k: Key, now: int, source: string, output: string, budget: nat)
    ensures var after := Recorded(rows, k, now, source, output);
      && !Claimable(after, discs, k, budget) && after[k].state == Complete
      && after[k].source == source && after[k].output == output
      && (if k in rows then after[k].attempt == rows[k].attempt && after[k].createdAt == rows[k].createdAt
          else after[k].attempt == 0 && after[k].createdAt == now)
      && forall j :: j != k ==> (j in after <==> j in rows) && (j in rows ==> after[j] == rows[j])
  {
  }

  class Store {
    var rows: Table
    var discs: set<int>

    method QueueTranscode(k: Key, now: int, source: string)
      modifies this`rows
      ensures rows == Queued(old(rows), k, now, source)
    {
      if k in rows {
        var r := rows[k];
        rows := rows[k := r.(state := Pending, createdAt := now, source := source)];
      } else {
        rows := rows[k := Row(Pending, 0, now, source, "")];
      }
    }

    /** Claims the oldest pending row with budget left, whichever order ties come in. */
    method NextTranscode(budget: nat) returns (job: Option<Key>)
      modifies this`rows
      ensures job.None? ==> rows == old(rows) && forall k :: !Claimable(rows, discs, k, budget)
      ensures job.Some? ==> IsNext(old(rows), discs, job.value, budget) && rows == Claimed(old(rows), job.value)
    {
      job := None;
      var todo := rows.Keys;
      while todo != {}
        invariant todo <= rows.Keys && rows == old(rows)
        invariant job.None? ==> forall k :: k in rows.Keys - todo ==> !Claimable(rows, discs, k, budget)
        invariant job.Some? ==> Claimable(rows, discs, job.value, budget)
        invariant job.Some? ==>
          forall k :: k in rows.Keys - todo && Claimable(rows, discs, k, budget) ==> NotAfter(rows, job.value, k)
        decreases |todo|
      {
        var k :| k in todo;
        if Claimable(rows, discs, k, budget) && (job.None? || NotAfter(rows, k, job.value)) {
          job := Some(k);
        }
        todo := todo - {k};
      }
      assert forall k :: k in rows ==> k in rows.Keys - todo;
      if job.Some? {
        assert Claimable(rows, discs, job.value, budget);
        var r := rows[job.value];
        rows := rows[job.value := r.(state := Running, attempt := r.attempt + 1)];
      }
    }

    method FinishTranscode(k: Key, output: string)
      modifies this`rows
      ensures rows == Finished(old(rows), k, output)
    {
      if k in rows {
        var r := rows[k];
        rows := rows[k := r.(state := Complete, output := output)];
      }
    }

    method FailTranscode(k: Key)
      modifies this`rows
      ensures rows == FailedRow(old(rows), k)
    {
      if k in rows {
        var r := rows[k];
        rows := rows[k := r.(state := Failed)];
      }
    }

    method RequeueTranscode(k: Key)
      modifies this`rows
      ensures rows == Requeued(old(rows), k)
    {
      if k in rows {
        var r := rows[k];
        rows := rows[k := r.(state := Pending, attempt := Refund(r.attempt))];
      }
    }

    /** One drain with no cancels and no new work: `encodes` says which files encode. */
    method Drain(budget: nat, encodes: set<Key>, output: string) returns (ran: seq<Key>)
      modifies this`rows
      ensures DrainedInOrder(old(rows), discs, budget, ran)
      ensures forall k :: Claimable(old(rows), discs, k, budget) ==> k in ran
      ensures Outcomes(old(rows), rows, ran, encodes, output)
    {
      ran := [];
      ghost var was := rows;
      while true
        invariant DrainedInOrder(was, discs, budget, ran)
        invariant Outcomes(was, rows, ran, encodes, output)
        invariant forall k :: Claimable(was, discs, k, budget) && k !in ran ==> Claimable(rows, discs, k, budget)
        invariant forall i, k :: 0 <= i < |ran| && Claimable(rows, discs, k, budget) ==> NotAfter(was, ran[i], k)
        decreases Waiting(rows)
      {
        ghost var before := rows;
        var job := NextTranscode(budget);
        if job.None? {
          break;
        }
        var k := job.value;
        if k in encodes {
          FinishTranscode(k, output);
        } else {
          FailTranscode(k);
        }
        ghost var done := rows[k];
        assert rows == before[k := done];
        DrainStep(was, before, discs, budget, ran, encodes, output, k, done);
        ran := ran + [k];
      }
    }
  }

  ghost function Waiting(rows: Table): set<Key> {
    set k | k in rows && rows[k].state == Pending
  }

  /** Only claimable rows ran, each once, oldest first. */
  ghost predicate DrainedInOrder(was: Table, discs: set<int>, budget: nat, ran: seq<Key>) {
    && (forall k :: k in ran ==> Claimable(was, discs, k, budget))
    && (forall i, j :: 0 <= i < j < |ran| ==> ran[i] != ran[j] && NotAfter(was, ran[i], ran[j]))
  }

  ghost predicate Outcomes(was: Table, rows: Table, ran: seq<Key>, encodes: set<Key>, output: string) {
    && rows.Keys == was.Keys
    && (forall k :: k in rows && k !in ran ==> rows[k] == was[k])
    && (forall k :: k in ran ==>
          k in rows && rows[k] == was[k].(attempt := was[k].attempt + 1,
            state := if k in encodes then Complete else Failed,
            output := if k in encodes then output else was[k].output))
  }

  lemma DrainStep(was: Table, before: Table, discs: set<int>, budget: nat, ran: seq<Key>, encodes: set<Key>,
      output: string, k: Key, done: Row)
    requires DrainedInOrder(was, discs, budget, ran) && Outcomes(was, before, ran, encodes, output)
    requires forall i, j :: 0 <= i < |ran| && Claimable(before, discs, j, budget) ==> NotAfter(was, ran[i], j)
    requires forall j :: Claimable(was, discs, j, budget) && j !in ran ==> Claimable(before, discs, j, budget)
    requires IsNext(before, discs, k, budget)
    requires done == before[k].(attempt := before[k].attempt + 1,
      state := if k in encodes then Complete else Failed, output := if k in encodes then output else before[k].output)
    ensures DrainedInOrder(was, discs, budget, ran + [k])
    ensures Outcomes(was, before[k := done], ran + [k], encodes, output)
    ensures var rows, ran' := before[k := done], ran + [k];
      && (forall j :: Claimable(was, discs, j, budget) && j !in ran' ==> Claimable(rows, discs, j, budget))
      && (forall i, j :: 0 <= i < |ran'| && Claimable(rows, discs, j, budget) ==> NotAfter(was, ran'[i], j))
    ensures Waiting(before[k := done]) < Waiting(before)
  {
    var rows := before[k := done];
    assert k !in ran && k in Waiting(before) && k !in Waiting(rows);
    assert forall j :: Claimable(rows, discs, j, budget) <==> j != k && Claimable(before, discs, j, budget);
    forall j | Claimable(rows, discs, j, budget) ensures NotAfter(was, k, j) {
      assert j != k && Claimable(before, discs, j, budget);
      assert NotAfter(before, k, j) && j !in ran;
    }
  }

  /** A drain runs what was queued first before what was queued later, and the titles of a disc
      queued at one moment in order. */
  lemma DrainedOldestFirst(was: Table, discs: set<int>, budget: nat, ran: seq<Key>, i: nat, j: nat)
    requires DrainedInOrder(was, discs, budget, ran) && i < j < |ran|
    ensures ran[i] in was && ran[j] in was && was[ran[i]].createdAt <= was[ran[j]].createdAt
    ensures ran[i].disc == ran[j].disc && was[ran[i]].createdAt == was[ran[j]].createdAt ==>
      ran[i].title < ran[j].title
  {
    assert NotAfter(was, ran[i], ran[j]) && ran[i] != ran[j];
  }

  // ---------- every run of the queue ----------

  /** What happened to a row since its last manual reset: encodes that reached a recorded
      outcome, whether a claim is still open, and claims that were never given back. */
  datatype Hist = Hist(ended: nat, held: bool, leaked: nat)

  datatype State = State(rows: Table, discs: set<int>, current: Option<Key>, hist: map<Key, Hist>)

  datatype Action =
    | AddDisc(disc: int)
    | Queue(k: Key, now: int, source: string)
    | Record(k: Key, now: int, source: string, output: string)
    | Claim(k: Key)
    | Finish(output: string)
    | Fail
    | Cancel
    | LoseOutcome  // the encode ended but nothing could be written
    | Restart      // the daemon stops anywhere and starts again
    | Reset(k: Key)

  function Init(): State { State(map[], {}, None, map[]) }

  /** A claim whose row is no longer marked running has nothing left to refund it, unless
      the runner still has it in hand. */
  function Touched(h: Hist, inHand: bool): Hist {
    if h.held && !inHand then Hist(h.ended, false, h.leaked + 1) else h
  }

  function HistOf(s: State, k: Key): Hist {
    if k in s.hist then s.hist[k] else Hist(0, false, 0)
  }

  function Ended(h: Hist): Hist {
    if h.held then Hist(h.ended + 1, false, h.leaked) else h
  }

  function RestartHist(s: State, k: Key): Hist {
    var h := HistOf(s, k);
    if k in s.rows && s.rows[k].state == Running then h.(held := false) else Touched(h, false)
  }

  function Apply(s: State, a: Action, budget: nat): State {
    match a
    case AddDisc(d) => s.(discs := s.discs + {d})
    case Queue(k, now, source) =>
      s.(rows := Queued(s.rows, k, now, source), hist := s.hist[k := Touched(HistOf(s, k), s.current == Some(k))])
    case Record(k, now, source, output) =>
      s.(rows := Recorded(s.rows, k, now, source, output),
          hist := s.hist[k := Touched(HistOf(s, k), s.current == Some(k))])
    case Claim(k) =>
      if s.current.Some? || !Claimable(s.rows, s.discs, k, budget) then s
      else s.(rows := Claimed(s.rows, k), current := Some(k), hist := s.hist[k := HistOf(s, k).(held := true)])
    case Reset(k) =>
      if k in s.rows then s.(rows := ResetRow(s.rows, k), hist := s.hist[k := Hist(0, false, 0)]) else s
    case Restart =>
      s.(rows := Reclaimed(s.rows), current := None, hist := map k | k in s.hist :: RestartHist(s, k))
    case _ => if s.current.None? then s else RunnerStep(s, s.current.value, a)
  }

  /** How the encode in hand ends. */
  function RunnerStep(s: State, k: Key, a: Action): State {
    var h := HistOf(s, k);
    if a.Finish? then s.(rows := Finished(s.rows, k, a.output), current := None, hist := s.hist[k := Ended(h)])
    else if a.Fail? then s.(rows := FailedRow(s.rows, k), current := None, hist := s.hist[k := Ended(h)])
    else if a.Cancel? then s.(rows := Requeued(s.rows, k), current := None, hist := s.hist[k := h.(held := false)])
    else s.(current := None, hist := s.hist[k := Touched(h, k in s.rows && s.rows[k].state == Running)])
  }

  function Exec(acts: seq<Action>, budget: nat): State {
    if acts == [] then Init() else Apply(Exec(acts[..|acts| - 1], budget), acts[|acts| - 1], budget)
  }

  /** Conservation: every charged attempt is an ended encode, an open claim or a leak. */
  ghost predicate RowInv(s: State, k: Key, budget: nat)
    requires k in s.rows
  {
    var r, h := s.rows[k], HistOf(s, k);
    && r.attempt == h.ended + h.leaked + (if h.held then 1 else 0)
    && r.attempt <= budget
    && (h.held ==> s.current == Some(k) || r.state == Running)
    && (r.state == Running ==> h.held)
    && (s.current == Some(k) && !h.held ==> r.attempt == 0)
  }

  ghost predicate Inv(s: State, budget: nat) {
    && s.hist.Keys == s.rows.Keys
    && (s.current.Some? ==> s.current.value in s.rows)
    && (forall k :: k in s.rows ==> RowInv(s, k, budget))
  }

  lemma RunnerKeeps(s: State, a: Action, budget: nat)
    requires Inv(s, budget) && s.current.Some?
    ensures Inv(RunnerStep(s, s.current.value, a), budget)
  {
    var t := RunnerStep(s, s.current.value, a);
    assert RowInv(s, s.current.value, budget);
    forall k | k in t.rows ensures RowInv(t, k, budget) {
      assert RowInv(s, k, budget);
    }
  }

  lemma RestartKeeps(s: State, budget: nat)
    requires Inv(s, budget)
    ensures Inv(Apply(s, Restart, budget), budget)
  {
    var t := Apply(s, Restart, budget);
    forall k | k in t.rows ensures RowInv(t, k, budget) {
      assert RowInv(s, k, budget);
    }
  }

  lemma QueueKeeps(s: State, a: Action, budget: nat)
    requires Inv(s, budget) && (a.Queue? || a.Record?)
    ensures Inv(Apply(s, a, budget), budget)
  {
    var t := Apply(s, a, budget);
    forall k | k in t.rows ensures RowInv(t, k, budget) {
      assert k in s.rows ==> RowInv(s, k, budget);
    }
  }

  lemma ClaimKeeps(s: State, a: Action, budget: nat)
    requires Inv(s, budget) && (a.Claim? || a.Reset?)
    ensures Inv(Apply(s, a, budget), budget)
  {
    var t := Apply(s, a, budget);
    forall k | k in t.rows ensures RowInv(t, k, budget) {
      assert k in s.rows ==> RowInv(s, k, budget);
    }
  }

  lemma StepKeeps(s: State, a: Action, budget: nat)
    requires Inv(s, budget)
    ensures Inv(Apply(s, a, budget), budget)
  {
    if a.Restart? {
      RestartKeeps(s, budget);
    } else if a.AddDisc? {
      assert forall k :: k in s.rows ==> RowInv(s, k, budget) && RowInv(s.(discs := s.discs + {a.disc}), k, budget);
    } else if a.Queue? || a.Record? {
      QueueKeeps(s, a, budget);
    } else if a.Claim? || a.Reset? {
      ClaimKeeps(s, a, budget);
    } else if s.current.Some? {
      RunnerKeeps(s, a, budget);
    }
  }

  /** In every run, attempts are conserved and never pass the budget. */
  lemma {:induction false} AttemptsConserved(acts: seq<Action>, budget: nat)
    ensures Inv(Exec(acts, budget), budget)
  {
    if acts != [] {
      AttemptsConserved(acts[..|acts| - 1], budget);
      StepKeeps(Exec(acts[..|acts| - 1], budget), acts[|acts| - 1], budget);
    }
  }

  /** Restarts, cancels and re-queues cannot buy more encodes than the budget. */
  lemma EncodesWithinBudget(acts: seq<Action>, budget: nat, k: Key)
    requires k in Exec(acts, budget).rows
    ensures var s := Exec(acts, budget); HistOf(s, k).ended <= s.rows[k].attempt <= budget
  {
    AttemptsConserved(acts, budget);
    assert RowInv(Exec(acts, budget), k, budget);
  }

  // ---------- exactly when an attempt is lost ----------

  /** The steps that lose the open claim of `k`: a restart, or an outcome nobody could write,
      that finds the row no longer marked running; or a queue or record of a row that was
      claimed and is no longer in hand. */
  predicate Leaks(s: State, a: Action, k: Key) {
    && HistOf(s, k).held
    && var running := k in s.rows && s.rows[k].state == Running;
    || (a.Restart? && !running)
    || (a.LoseOutcome? && s.current == Some(k) && !running)
    || ((a.Queue? || a.Record?) && a.k == k && s.current != Some(k))
  }

  predicate Resets(s: State, a: Action, k: Key) { a.Reset? && a.k == k && k in s.rows }

  /** The attempts on a row that no ended encode and no open claim accounts for. */
  function Unaccounted(s: State, k: Key): int {
    if k in s.rows then s.rows[k].attempt - HistOf(s, k).ended - (if HistOf(s, k).held then 1 else 0) else 0
  }

  /** Each such step makes one more of them, a manual reset none, and no other step any. */
  lemma LeaksIff(s: State, a: Action, budget: nat, k: Key)
    requires Inv(s, budget)
    ensures Unaccounted(Apply(s, a, budget), k)
         == if Resets(s, a, k) then 0 else Unaccounted(s, k) + (if Leaks(s, a, k) then 1 else 0)
  {
    var t := Apply(s, a, budget);
    StepKeeps(s, a, budget);
    LeaksCount(s, a, budget, k);
    if k in s.rows {
      assert RowInv(s, k, budget);
    }
    if k in t.rows {
      assert RowInv(t, k, budget);
    }
  }

  lemma LeaksCount(s: State, a: Action, budget: nat, k: Key)
    requires Inv(s, budget)
    ensures HistOf(Apply(s, a, budget), k).leaked
         == if Resets(s, a, k) then 0 else HistOf(s, k).leaked + (if Leaks(s, a, k) then 1 else 0)
  {
    if k in s.rows {
      assert RowInv(s, k, budget);
    }
  }

  /** No step since the last manual reset of `k` lost its claim. */
  predicate Unleaked(acts: seq<Action>, budget: nat, k: Key) {
    acts != [] ==>
      var s, a := Exec(acts[..|acts| - 1], budget), acts[|acts| - 1];
      Resets(s, a, k) || (Unleaked(acts[..|acts| - 1], budget, k) && !Leaks(s, a, k))
  }

  /** The attempts on a row are exactly its ended encodes and the claim still open if and only
      if no such step happened to it. */
  lemma LeakFreeIff(acts: seq<Action>, budget: nat, k: Key)
    requires k in Exec(acts, budget).rows
    ensures var s := Exec(acts, budget);
      var h := HistOf(s, k);
      s.rows[k].attempt == h.ended + (if h.held then 1 else 0) <==> Unleaked(acts, budget, k)
  {
    LostIff(acts, budget, k);
    AttemptsConserved(acts, budget);
    assert RowInv(Exec(acts, budget), k, budget);
  }

  lemma {:induction false} LostIff(acts: seq<Action>, budget: nat, k: Key)
    ensures HistOf(Exec(acts, budget), k).leaked == 0 <==> Unleaked(acts, budget, k)
  {
    if acts != [] {
      var before, a := acts[..|acts| - 1], acts[|acts| - 1];
      LostIff(before, budget, k);
      AttemptsConserved(before, budget);
      LeaksCount(Exec(before, budget), a, budget, k);
    }
  }

  /** A pending row can be claimed if and only if its ended encodes, its lost attempts and a
      claim still open together leave some of the budget. */
  lemma ClaimableIff(acts: seq<Action>, budget: nat, k: Key)
    requires var s := Exec(acts, budget); k in s.rows && s.rows[k].state == Pending && k.disc in s.discs
    ensures var s := Exec(acts, budget);
      var h := HistOf(s, k);
      && (Claimable(s.rows, s.discs, k, budget) <==> h.ended + h.leaked + (if h.held then 1 else 0) < budget)
      && (h.held ==> s.current == Some(k))
  {
    AttemptsConserved(acts, budget);
    assert RowInv(Exec(acts, budget), k, budget);
  }

  /** So a pending job that lost no attempt and no encode of which ever ended can be claimed,
      however often it was cancelled or the daemon restarted, unless the runner has it in hand
      and that claim is the whole budget. */
  lemma InterruptedJobStaysClaimable(acts: seq<Action>, budget: nat, k: Key)
    requires Unleaked(acts, budget, k) && budget > 0
    requires var s := Exec(acts, budget);
      k in s.rows && s.rows[k].state == Pending && HistOf(s, k).ended == 0 && k.disc in s.discs
    ensures var s := Exec(acts, budget);
      Claimable(s.rows, s.discs, k, budget) <==> !(s.current == Some(k) && HistOf(s, k).held && budget == 1)
  {
    LostIff(acts, budget, k);
    ClaimableIff(acts, budget, k);
  }

  /** Re-queuing a title while it is being encoded, then restarting, strands it: after two
      such rounds it is pending, unclaimable, and was never once encoded to an end. */
  lemma RequeueWhileRunningStrands() returns (acts: seq<Action>)
    ensures var k, s := Key(1, 1), Exec(acts, 2);
      && k in s.rows && s.rows[k].state == Pending && s.rows[k].attempt == 2
      && HistOf(s, k) == Hist(0, false, 2) && s.current.None?
      && !Claimable(s.rows, s.discs, k, 2)
  {
    var k := Key(1, 1);
    var s: State;
    acts, s := Then([], Init(), AddDisc(1));
    acts, s := Then(acts, s, Queue(k, 0, ""));
    acts, s := StrandOnce(acts, s, k, 0);
    acts, s := StrandOnce(acts, s, k, 1);
  }

  lemma Then(acts: seq<Action>, s: State, a: Action) returns (acts': seq<Action>, t: State)
    requires Exec(acts, 2) == s
    ensures t == Apply(s, a, 2) && Exec(acts', 2) == t
  {
    acts', t := acts + [a], Apply(s, a, 2);
    assert acts'[..|acts|] == acts;
  }

  lemma StrandOnce(acts: seq<Action>, s: State, k: Key, n: nat) returns (acts': seq<Action>, t: State)
    requires Exec(acts, 2) == s && s.current.None? && n < 2 && k.disc in s.discs
    requires s.rows == map[k := Row(Pending, n, 0, "", "")] && s.hist == map[k := Hist(0, false, n)]
    ensures Exec(acts', 2) == t && t.current.None? && t.discs == s.discs
    ensures t.rows == map[k := Row(Pending, n + 1, 0, "", "")] && t.hist == map[k := Hist(0, false, n + 1)]
  {
    acts', t := Then(acts, s, Claim(k));
    ClaimAlone(s, k, n);
    acts', t := Then(acts', t, Queue(k, 0, ""));
    assert t.rows == map[k := Row(Pending, n + 1, 0, "", "")] && t.hist == map[k := Hist(0, true, n)];
    acts', t := Then(acts', t, Restart);
  }

  lemma ClaimAlone(s: State, k: Key, n: nat)
    requires s.current.None? && n < 2 && k.disc in s.discs
    requires s.rows == map[k := Row(Pending, n, 0, "", "")] && s.hist == map[k := Hist(0, false, n)]
    ensures var t := Apply(s, Claim(k), 2);
      && t.discs == s.discs && t.current == Some(k)
      && t.rows == map[k := Row(Running, n + 1, 0, "", "")] && t.hist == map[k := Hist(0, true, n)]
  {
    assert Claimable(s.rows, s.discs, k, 2);
  }

  // ---------- outcomes ----------

  /** The row has this outcome and nobody is at it. */
  ghost predicate Outcome(s: State, k: Key, row: Row) {
    k in s.rows && s.rows[k] == row && (row.state == Complete || row.state == Failed) && s.current != Some(k)
  }

  predicate About(a: Action, k: Key) { (a.Queue? || a.Record? || a.Reset?) && a.k == k }

  lemma OutcomeStep(s: State, a: Action, budget: nat, k: Key, row: Row)
    requires Outcome(s, k, row) && !About(a, k)
    ensures Outcome(Apply(s, a, budget), k, row)
  {
  }

  lemma {:induction false} OutcomeStays(acts: seq<Action>, more: seq<Action>, budget: nat, k: Key, row: Row)
    requires Outcome(Exec(acts, budget), k, row) && forall a :: a in more ==> !About(a, k)
    ensures Outcome(Exec(acts + more, budget), k, row)
    decreases |more|
  {
    if more == [] {
      assert acts + more == acts;
    } else {
      var front, a := more[..|more| - 1], more[|more| - 1];
      assert a in more;
      OutcomeStays(acts, front, budget, k, row);
      assert (acts + more)[..|acts + more| - 1] == acts + front && (acts + more)[|acts + more| - 1] == a;
      OutcomeStep(Exec(acts + front, budget), a, budget, k, row);
    }
  }

  /** How an encode ended is what its row says from then on, the new file included, through restarts
      and everything else that happens, until the title is queued, recorded or reset again. */
  lemma OutcomeIsKept(acts: seq<Action>, a: Action, more: seq<Action>, budget: nat, k: Key)
    requires Exec(acts, budget).current == Some(k) && k in Exec(acts, budget).rows && (a.Finish? || a.Fail?)
    requires forall b :: b in more ==> !About(b, k)
    ensures var was, rows := Exec(acts, budget).rows[k], Exec(acts + [a] + more, budget).rows;
      && k in rows
      && rows[k] == if a.Finish? then was.(state := Complete, output := a.output) else was.(state := Failed)
  {
    var s := Exec(acts, budget);
    assert (acts + [a])[..|acts|] == acts;
    OutcomeStays(acts + [a], more, budget, k, Exec(acts + [a], budget).rows[k]);
  }
}
