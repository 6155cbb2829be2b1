/** The drive monitor: timed status readings in, debounced transitions out. */
module Monitor {
  import opened Text

  datatype Status = Unknown | NoDisc | TrayOpen | NotReady | DiscOK | Incompatible

  /** One poll: when, and the status read, or nothing when the drive could not be read. */
  datatype Reading = Reading(at: int, got: Option<Status>)

  datatype Event = Event(from: Status, to: Status, at: int, failed: bool)

  /** Three seconds, in nanoseconds. */
  const SETTLE := 3_000_000_000

  predicate Transient(s: Status) { s == NotReady || s == Unknown }

  function Target(r: Reading): Status {
    if r.got.None? then Unknown else r.got.value
  }

  // ---------- what the events should be, said without `pending` ----------

  /** Where the run of identical readings that ends at `k` began. */
  function RunStart(rs: seq<Reading>, k: nat): (j: nat)
    requires k < |rs|
    ensures j <= k && forall i :: j <= i <= k ==> rs[i].got == rs[k].got
    ensures j > 0 ==> rs[j - 1].got != rs[k].got
  {
    if k > 0 && rs[k - 1].got == rs[k].got then RunStart(rs, k - 1) else k
  }

  /** The status last reported before reading `k`. */
  function Shown(rs: seq<Reading>, k: nat): Status
    requires k <= |rs|
    decreases k, 0
  {
    if k == 0 then Unknown
    else if Reports(rs, k - 1) then Target(rs[k - 1])
    else Shown(rs, k - 1)
  }

  /** Whether reading `k` is news: the first always is; after that it must differ from what
      was last reported, and a transient status must also have lasted. */
  predicate Reports(rs: seq<Reading>, k: nat)
    requires k < |rs|
    decreases k, 1
  {
    k == 0
    || (Target(rs[k]) != Shown(rs, k)
        && (rs[k].got.Some? && Transient(rs[k].got.value) ==> rs[k].at - rs[RunStart(rs, k)].at >= SETTLE))
  }

  function Expected(rs: seq<Reading>, k: nat): seq<Event>
    requires k <= |rs|
  {
    if k == 0 then []
    else if !Reports(rs, k - 1) then Expected(rs, k - 1)
    else Expected(rs, k - 1) + [Event(Shown(rs, k - 1), Target(rs[k - 1]), rs[k - 1].at, rs[k - 1].got.None?)]
  }

  /** The polling loop reports exactly that. */
  method Run(rs: seq<Reading>) returns (events: seq<Event>)
    ensures events == Expected(rs, |rs|)
  {
    var current, pending, pendingAt, started := Unknown, Unknown, 0, false;
    events := [];
    for k := 0 to |rs|
      invariant events == Expected(rs, k)
      invariant started <==> k > 0
      invariant current == Shown(rs, k)
      invariant k > 0 ==> pending == Target(rs[k - 1])
      invariant k > 0 && rs[k - 1].got.None? ==> current == Unknown
      invariant k > 0 && Transient(pending) && pending != current ==>
        rs[k - 1].got == Some(pending) && pendingAt == rs[RunStart(rs, k - 1)].at
    {
      var r := rs[k];
      if r.got.None? {
        if current != Unknown || !started {
          started := true;
          events := events + [Event(current, Unknown, r.at, true)];
          current := Unknown;
        }
        pending := Unknown;
        continue;
      }
      var status := r.got.value;
      if !started {
        started := true;
        current := Unknown;
        events := events + [Event(current, status, r.at, false)];
        current := status;
        pending := status;
        continue;
      }
      if status == current {
        pending := status;
        continue;
      }
      if status == NotReady || status == Unknown {
        if pending != status {
          pending, pendingAt := status, r.at;
          continue;
        }
        if r.at - pendingAt < SETTLE {
          continue;
        }
      }
      pending := status;
      events := events + [Event(current, status, r.at, false)];
      current := status;
    }
  }

  // ---------- what that promises ----------

  /** Each event starts where the one before it ended, the first at Unknown, and the last
      one reported is what the monitor shows. */
  lemma {:induction false} EventsChain(rs: seq<Reading>, k: nat)
    requires k <= |rs|
    ensures var evs := Expected(rs, k);
      && (forall i :: 0 < i < |evs| ==> evs[i].from == evs[i - 1].to)
      && (evs != [] ==> evs[0].from == Unknown && evs[|evs| - 1].to == Shown(rs, k))
      && (k > 0 <==> evs != [])
      && (forall i :: 0 < i < |evs| ==> evs[i].from != evs[i].to)
  {
    if k > 0 {
      EventsChain(rs, k - 1);
    }
  }

  /** A reading index behind every event, in order. */
  lemma {:induction false} EventsHaveReadings(rs: seq<Reading>, k: nat, i: nat) returns (r: nat)
    requires k <= |rs| && i < |Expected(rs, k)|
    ensures r < k && Reports(rs, r) && |Expected(rs, r)| == i
    ensures Expected(rs, k)[i] == Event(Shown(rs, r), Target(rs[r]), rs[r].at, rs[r].got.None?)
  {
    if Reports(rs, k - 1) && i == |Expected(rs, k)| - 1 {
      r := k - 1;
    } else {
      r := EventsHaveReadings(rs, k - 1, i);
    }
  }

  /** Not ready and unknown are believed, after the first reading, only when every reading over
      at least three seconds was that same status and none of them failed. */
  lemma TransientsLast(rs: seq<Reading>, i: nat) returns (j: nat, r: nat)
    requires 0 < i < |Expected(rs, |rs|)|
    requires Expected(rs, |rs|)[i].to in {NotReady, Unknown} && !Expected(rs, |rs|)[i].failed
    ensures var ev := Expected(rs, |rs|)[i];
      && j < r < |rs| && rs[r].at == ev.at && ev.at - rs[j].at >= 3_000_000_000
      && forall m :: j <= m <= r ==> rs[m].got == Some(ev.to)
  {
    r := EventsHaveReadings(rs, |rs|, i);
    j := RunStart(rs, r);
  }

  /** After any reading the monitor shows what it read, unless that is not ready or unknown and has
      not lasted yet; so a settled status or a failure is never shown late. */
  lemma ShownAtOnce(rs: seq<Reading>, k: nat)
    requires k < |rs|
    ensures Shown(rs, k + 1) == Target(rs[k]) <==>
      (k == 0 || rs[k].got.None? || rs[k].got.value !in {NotReady, Unknown}
       || Shown(rs, k) == Target(rs[k]) || rs[k].at - rs[RunStart(rs, k)].at >= 3_000_000_000)
  {
  }

  ghost predicate ClockForward(rs: seq<Reading>) {
    forall i, j :: 0 <= i <= j < |rs| ==> rs[i].at <= rs[j].at
  }

  lemma {:induction false} RunStartReaches(rs: seq<Reading>, j: nat, k: nat)
    requires j <= k < |rs| && forall m :: j <= m <= k ==> rs[m].got == rs[k].got
    ensures RunStart(rs, k) <= j
  {
    if j < k {
      assert rs[k - 1].got == rs[k].got;
      RunStartReaches(rs, j, k - 1);
    }
  }

  /** Whatever the drive keeps saying for the settle time is what the monitor ends up showing. */
  lemma SteadyIsShown(rs: seq<Reading>, j: nat, k: nat)
    requires ClockForward(rs) && j <= k < |rs|
    requires rs[k].at - rs[j].at >= 3_000_000_000 && forall m :: j <= m <= k ==> rs[m].got == rs[k].got
    ensures Shown(rs, k + 1) == Target(rs[k])
  {
    RunStartReaches(rs, j, k);
    ShownAtOnce(rs, k);
  }

  /** A flicker of transient readings, each spell too short to be believed, reports nothing. */
  lemma {:induction false} FlickerIsSilent(rs: seq<Reading>, j: nat, k: nat)
    requires 0 < j <= k <= |rs|
    requires forall m :: j <= m < k ==> rs[m].got.Some? && Transient(rs[m].got.value)
    requires forall m :: j <= m < k ==> rs[m].at - rs[RunStart(rs, m)].at < SETTLE
    ensures Expected(rs, k) == Expected(rs, j) && Shown(rs, k) == Shown(rs, j)
  {
    if j < k {
      FlickerIsSilent(rs, j, k - 1);
    }
  }

  /** A failed reading is reported exactly when it is the first reading or something other
      than Unknown was showing: a drive that keeps failing is reported once, and one that
      was already read as Unknown is not reported at all. */
  lemma FailureReported(rs: seq<Reading>, k: nat)
    requires k < |rs| && rs[k].got.None?
    ensures |Expected(rs, k + 1)| == |Expected(rs, k)| + (if k == 0 || Shown(rs, k) != Unknown then 1 else 0)
    ensures k + 1 < |rs| && rs[k + 1].got.None? ==> Expected(rs, k + 2) == Expected(rs, k + 1)
  {
  }
}
