/** Encodes finishing while filing runs: when the order does not show.

    An encode is a new file renamed into place outside the library, replacing what was there.
    A run may raise half way.  `e` is always the state the encodes alone would have led to,
    `k` the one with the runs in between. */
module Confluence {
  import opened Text
  import opened Filing

  // ---------- encodes ----------

  /** A rename into place lands anywhere but in the library, above it, or on a directory. */
  predicate Lands(lib: Path, c: Core, p: Path) {
    !Under(lib, p) && !(p <= lib) && p !in c.dirs
  }

  /** An encode finishing: a new file is renamed to `p`, replacing what was there. */
  function Encode(lib: Path, c: Core, p: Path, n: Inode): Core {
    if Lands(lib, c, p) then c.(links := c.links[p := n], notes := c.notes - {p}) else c
  }

  /** What lands is what its name names from then on; no other name is touched. */
  lemma EncodeIs(lib: Path, c: Core, p: Path, n: Inode, q: Path)
    ensures var d := Encode(lib, c, p, n);
      && (Lands(lib, c, p) ==> p in d.links && d.links[p] == n && p !in d.notes)
      && (q != p || !Lands(lib, c, p) ==> SameAt(c.links, d.links, q) && SameAt(c.notes, d.notes, q))
      && d.dirs == c.dirs && d.encoded == c.encoded && d.placed == c.placed
  {
  }

  /** A file just written has an inode that no other name has. */
  ghost predicate NewFile(c: Core, n: Inode) {
    forall q :: q in c.links ==> c.links[q] != n
  }

  /** The record of `s` names `p`. */
  predicate Recorded(c: Core, s: Slot, p: Path) {
    s.title in c.encoded && c.encoded[s.title] == p
  }

  /** Placing `s` does nothing yet, or an encode at `p` will not change where it is placed from. */
  predicate Movable(c: Core, s: Slot, p: Path) {
    var v := Judge(c, s);
    || v.NotFiled? || v.Waiting?
    || (!(v.Linked? && v.src == p) && (Recorded(c, s, p) ==> p in c.links))
  }

  lemma EncodeJudge(lib: Path, c: Core, s: Slot, p: Path, n: Inode)
    requires CoreOk(lib, c) && SlotOk(lib, s) && Lands(lib, c, p) && NewFile(c, n) && Movable(c, s, p)
    ensures Judge(c, s).Waiting? || Judge(Encode(lib, c, p, n), s) == Judge(c, s)
  {
  }

  lemma TouchLands(lib: Path, c: Core, t: Touched, p: Path)
    requires SlotOk(lib, t.slot)
    ensures Lands(lib, Touch(c, t), p) == Lands(lib, c, p)
  {
    if t.slot.dest.Some? {
      AncestorsNearLibrary(lib, t.slot.dest.value, p);
    }
  }

  lemma TouchNewFile(c: Core, t: Touched, n: Inode)
    requires NewFile(c, n)
    ensures NewFile(Touch(c, t), n)
  {
  }

  lemma TouchMovable(lib: Path, c: Core, h: Touched, s: Slot, p: Path)
    requires CoreOk(lib, c) && SlotOk(lib, h.slot) && SlotOk(lib, s) && (h.slot == s || Apart(s, h.slot))
    requires Movable(c, s, p)
    ensures Movable(Touch(c, h), s, p)
  {
    TouchJudge(lib, c, h, s);
  }

  lemma EncodeKeepsOk(lib: Path, c: Core, p: Path, n: Inode)
    requires CoreOk(lib, c)
    ensures CoreOk(lib, Encode(lib, c, p, n))
  {
  }

  /** An encode finishing after a title was placed might as well have finished before, unless
      it replaces the very file the title was linked from, or brings back one that the title's
      record named when it was placed from its mirror. */
  lemma EncodeAfterPlace(lib: Path, c: Core, s: Slot, p: Path, n: Inode)
    requires CoreOk(lib, c) && SlotOk(lib, s) && NewFile(c, n) && Movable(c, s, p)
    ensures Place(c, s) == c || Encode(lib, Place(c, s), p, n) == Place(Encode(lib, c, p, n), s)
  {
    TouchLands(lib, c, Touched(s, true), p);
    if Lands(lib, c, p) {
      if s.dest.Some? {
        SidecarUnder(lib, s.dest.value);
      }
      EncodeJudge(lib, c, s, p, n);
      EncodeEnact(c, s, Judge(c, s), p, n);
    }
  }

  lemma EncodeAfterTouch(lib: Path, c: Core, t: Touched, p: Path, n: Inode)
    requires CoreOk(lib, c) && SlotOk(lib, t.slot) && NewFile(c, n) && Movable(c, t.slot, p)
    ensures Touch(c, t) == c || Encode(lib, Touch(c, t), p, n) == Touch(Encode(lib, c, p, n), t)
  {
    EncodeAfterPlace(lib, c, t.slot, p, n);
    TouchLands(lib, c, Touched(t.slot, true), p);
    TouchLands(lib, c, Touched(t.slot, false), p);
  }

  lemma EncodeEnact(c: Core, s: Slot, v: Verdict, p: Path, n: Inode)
    requires s.dest.Some? ==> s.dest.value != p && Sidecar(s.dest.value) != p
    ensures var e := Enact(c, s, v);
      e.(links := e.links[p := n], notes := e.notes - {p})
      == Enact(c.(links := c.links[p := n], notes := c.notes - {p}), s, v)
  {
    if Files(s, v) {
      UpdateThenRemove(c.notes, Sidecar(s.dest.value), s.nfo, p);
      if s.dest.value !in c.links {
        UpdatesCommute(c.links, s.dest.value, v.inode, p, n);
      }
    }
  }

  lemma UpdateThenRemove<K, V>(m: map<K, V>, a: K, x: V, b: K)
    requires a != b
    ensures m[a := x] - {b} == (m - {b})[a := x]
  {
  }

  /** An encode finishing after some titles were touched, seen as finishing before them. */
  lemma {:induction false} EncodeAfterSome(lib: Path, c: Core, slots: seq<Slot>, some: seq<Touched>, p: Path, n: Inode)
    returns (rest: seq<Touched>)
    requires CoreOk(lib, c) && PlanOk(lib, slots) && Among(some, slots) && NewFile(c, n)
    requires forall t :: t in some ==> Movable(c, t.slot, p)
    ensures Among(rest, slots) && Encode(lib, TouchAll(c, some), p, n) == TouchAll(Encode(lib, c, p, n), rest)
    decreases |some|
  {
    if some == [] {
      rest := [];
    } else {
      var h := some[0];
      assert h in some;
      TouchJudge(lib, c, h, h.slot);
      TouchNewFile(c, h, n);
      EncodeAfterTouch(lib, c, h, p, n);
      forall t | t in some[1..] ensures Movable(Touch(c, h), t.slot, p) {
        assert t in some;
        TouchMovable(lib, c, h, t.slot, p);
      }
      rest := EncodeAfterSome(lib, Touch(c, h), slots, some[1..], p, n);
      if Touch(c, h) != c {
        assert ([h] + rest)[1..] == rest;
        rest := [h] + rest;
      }
    }
  }

  lemma ShowEncode(lib: Path, c: Core, plan: Plan, p: Path, n: Inode)
    requires Under(lib, plan.show)
    ensures AddShow(Encode(lib, c, p, n), plan) == Encode(lib, AddShow(c, plan), p, n)
  {
    if Lands(lib, c, p) {
      assert Exists(Encode(lib, c, p, n), plan.show) == Exists(c, plan.show);
      UpdateThenRemove(c.notes, plan.show, plan.showText, p);
    }
  }

  // ---------- runs between encodes ----------

  datatype Step = Encoded(path: Path, inode: Inode) | FileRun

  function Apply(lib: Path, st: State, plan: Plan, a: Step): State {
    match a
    case Encoded(p, n) => st.(core := Encode(lib, st.core, p, n))
    case FileRun => Run(st, plan)
  }

  function Exec(lib: Path, st: State, plan: Plan, acts: seq<Step>): State {
    if acts == [] then st else Apply(lib, Exec(lib, st, plan, acts[..|acts| - 1]), plan, acts[|acts| - 1])
  }

  /** The same encodes with no filing in between. */
  function Encodes(lib: Path, c: Core, acts: seq<Step>): Core {
    if acts == [] then c
    else
      var e := Encodes(lib, c, acts[..|acts| - 1]);
      match acts[|acts| - 1]
      case Encoded(p, n) => Encode(lib, e, p, n)
      case FileRun => e
  }

  /** Every encode is a new file when it lands. */
  ghost predicate Fresh(lib: Path, st: State, plan: Plan, acts: seq<Step>) {
    acts != [] ==>
      && Fresh(lib, st, plan, acts[..|acts| - 1])
      && var a, k := acts[|acts| - 1], Exec(lib, st, plan, acts[..|acts| - 1]).core;
      a.Encoded? ==> NewFile(k, a.inode)
  }

  /** A filing run happened. */
  predicate Ran(acts: seq<Step>) { FileRun in acts }

  /** `s` is linked, and `p` is the file it is linked from, or the one its record named at the start. */
  predicate Bound(start: Core, k: Core, s: Slot, p: Path) {
    var v := Judge(k, s);
    v.Linked? && s.dest.Some? && s.dest.value in k.links && (v.src == p || Recorded(start, s, p))
  }

  /** The record of `s` named `p` at the start and names another file now. */
  predicate Moved(start: Core, k: Core, s: Slot, p: Path) {
    Recorded(start, s, p) && s.title in k.encoded && k.encoded[s.title] != p
  }

  /** An encode lands on the file of a linked title, or on what was its file before. */
  ghost predicate Replaces(lib: Path, start: Core, plan: Plan, k: Core, p: Path) {
    Lands(lib, k, p) && exists i :: 0 <= i < |plan.slots| && Bound(start, k, plan.slots[i], p)
  }

  /** An encode brings back a file that a title's record named until the title was placed from
      its mirror. */
  ghost predicate BringsBack(lib: Path, start: Core, plan: Plan, k: Core, p: Path) {
    Lands(lib, k, p) && exists i :: 0 <= i < |plan.slots| && Moved(start, k, plan.slots[i], p)
  }

  /** The same as `Replaces`, for a title whose library name was not there at the start. */
  ghost predicate ReplacesNew(lib: Path, start: Core, plan: Plan, k: Core, p: Path) {
    && Lands(lib, k, p)
    && exists i :: 0 <= i < |plan.slots| && Bound(start, k, plan.slots[i], p)
         && plan.slots[i].dest.value !in start.links
  }

  /** From the first filing run on, no encode did either of the first two. */
  ghost predicate Settled(lib: Path, st: State, plan: Plan, acts: seq<Step>) {
    acts != [] ==>
      && var before, a := acts[..|acts| - 1], acts[|acts| - 1];
      && Settled(lib, st, plan, before)
      && var k := Exec(lib, st, plan, before).core;
      a.Encoded? && Ran(before) ==>
        !Replaces(lib, st.core, plan, k, a.path) && !BringsBack(lib, st.core, plan, k, a.path)
  }

  /** No encode of the run brought a recorded file back. */
  ghost predicate NoneBack(lib: Path, st: State, plan: Plan, acts: seq<Step>) {
    acts != [] ==>
      && var before, a := acts[..|acts| - 1], acts[|acts| - 1];
      && NoneBack(lib, st, plan, before)
      && (a.Encoded? ==> !BringsBack(lib, st.core, plan, Exec(lib, st, plan, before).core, a.path))
  }

  /** No encode of the run landed on the file of a title newly linked. */
  ghost predicate NamesSettled(lib: Path, st: State, plan: Plan, acts: seq<Step>) {
    acts != [] ==>
      && var before, a := acts[..|acts| - 1], acts[|acts| - 1];
      && NamesSettled(lib, st, plan, before)
      && (a.Encoded? ==> !ReplacesNew(lib, st.core, plan, Exec(lib, st, plan, before).core, a.path))
  }

  lemma {:induction false} TouchAllKeeps(c: Core, some: seq<Touched>)
    ensures var d := TouchAll(c, some);
      c.dirs <= d.dirs && forall p :: p in c.links ==> p in d.links && d.links[p] == c.links[p]
    decreases |some|
  {
    if some != [] {
      TouchAllKeeps(Touch(c, some[0]), some[1..]);
    }
  }

  lemma {:induction false} TouchAllLands(lib: Path, c: Core, slots: seq<Slot>, some: seq<Touched>, p: Path)
    requires PlanOk(lib, slots) && Among(some, slots)
    ensures Lands(lib, TouchAll(c, some), p) == Lands(lib, c, p)
    decreases |some|
  {
    if some != [] {
      assert some[0] in some;
      TouchLands(lib, c, some[0], p);
      TouchAllLands(lib, Touch(c, some[0]), slots, some[1..], p);
    }
  }

  /** A title touched early has its library name. */
  lemma {:induction false} TouchedIsThere(lib: Path, c: Core, slots: seq<Slot>, some: seq<Touched>, t: Touched)
    requires CoreOk(lib, c) && PlanOk(lib, slots) && Among(some, slots) && t in some && Judge(c, t.slot).Linked?
    ensures t.slot.dest.Some? && t.slot.dest.value in TouchAll(c, some).links
    ensures t.slot.dest.value !in c.links ==> TouchAll(c, some).links[t.slot.dest.value] == Judge(c, t.slot).inode
    decreases |some|
  {
    var h, s := some[0], t.slot;
    assert h in some;
    if h.slot == s {
      TouchAllKeeps(Touch(c, h), some[1..]);
    } else {
      assert t in some[1..];
      TouchJudge(lib, c, h, s);
      DestSteady(c, h.slot, Judge(c, h.slot), s.dest.value);
      TouchedIsThere(lib, Touch(c, h), slots, some[1..], t);
    }
  }

  lemma RunKeeps(st: State, plan: Plan)
    ensures var d := Run(st, plan).core;
      st.core.dirs <= d.dirs && forall p :: p in st.core.links ==> p in d.links && d.links[p] == st.core.links[p]
  {
    var some := SweepTouches(st.core, plan.slots);
    TouchAllKeeps(st.core, some);
    if !Sweep(st.core, plan.slots).raised {
      SweepUnraised(st.core, plan.slots);
    }
  }

  // ---------- early runs only take holders away ----------

  /** Every placement in `k` is as in `e`, or that of a title at its own destination. */
  ghost predicate Rows(k: Core, e: Core, slots: seq<Slot>) {
    forall t :: t in k.placed ==>
      || (t in e.placed && k.placed[t] == e.placed[t])
      || exists i :: 0 <= i < |slots| && slots[i].title == t && slots[i].dest == Some(k.placed[t].path)
  }

  lemma {:induction false} TouchAllRows(c: Core, e: Core, slots: seq<Slot>, some: seq<Touched>)
    requires Rows(c, e, slots) && Among(some, slots)
    ensures Rows(TouchAll(c, some), e, slots)
    decreases |some|
  {
    if some != [] {
      var h := some[0];
      assert h in some;
      var i :| 0 <= i < |slots| && slots[i] == h.slot;
      assert Rows(Touch(c, h), e, slots);
      TouchAllRows(Touch(c, h), e, slots, some[1..]);
    }
  }

  /** Whoever holds another title's destination held it before. */
  lemma HolderIsOld(lib: Path, k: Core, e: Core, slots: seq<Slot>, i: nat, t: nat)
    requires PlanOk(lib, slots) && Rows(k, e, slots) && i < |slots| && slots[i].dest.Some?
    requires t in k.placed && t != slots[i].title && k.placed[t].path == slots[i].dest.value
    ensures t in e.placed && e.placed[t] == k.placed[t]
  {
    forall j | 0 <= j < |slots| && slots[j].title == t ensures slots[j].dest != slots[i].dest {
      assert j < i ==> Apart(slots[j], slots[i]);
      assert i < j ==> Apart(slots[i], slots[j]);
    }
  }

  lemma RaisesAtBefore(lib: Path, k: Core, e: Core, slots: seq<Slot>, i: nat)
    requires PlanOk(lib, slots) && Rows(k, e, slots) && i < |slots| && RaisesAt(k, slots, i)
    requires forall j :: 0 <= j < |slots| ==> Judge(k, slots[j]) == Judge(e, slots[j])
    ensures RaisesAt(e, slots, i)
  {
    var s := slots[i];
    var t :| t in k.placed && t != s.title && k.placed[t].path == s.dest.value
      && forall j :: 0 <= j < i && slots[j].title == t ==> !Judge(k, slots[j]).Linked?;
    HolderIsOld(lib, k, e, slots, i, t);
  }

  /** So a run over `k` raises only if one over `e` would. */
  lemma RaisesOnlyIf(lib: Path, k: Core, e: Core, slots: seq<Slot>)
    requires CoreOk(lib, k) && CoreOk(lib, e) && PlanOk(lib, slots) && Rows(k, e, slots)
    requires forall i :: 0 <= i < |slots| ==> Judge(k, slots[i]) == Judge(e, slots[i])
    ensures Sweep(k, slots).raised ==> Sweep(e, slots).raised
  {
    RaisesIff(lib, k, slots);
    RaisesIff(lib, e, slots);
    if i :| 0 <= i < |slots| && RaisesAt(k, slots, i) {
      RaisesAtBefore(lib, k, e, slots, i);
    }
  }

  // ---------- the whole state ----------

  /** `k` is `e` with some titles touched early, and perhaps the series note written. */
  ghost predicate Staged(plan: Plan, e: Core, k: Core, some: seq<Touched>) {
    && Among(some, plan.slots)
    && (k == TouchAll(e, some) || (plan.series && AnyLinked(e, plan.slots) && k == AddShow(TouchAll(e, some), plan)))
  }

  lemma StagedJudge(lib: Path, plan: Plan, e: Core, k: Core, some: seq<Touched>, s: Slot)
    requires CoreOk(lib, e) && Fileable(lib, plan) && Staged(plan, e, k, some) && s in plan.slots
    ensures Judge(k, s) == Judge(e, s) && CoreOk(lib, k)
  {
    JudgeSteadyAll(lib, e, plan.slots, some, s);
    ShowJudge(lib, TouchAll(e, some), plan, s);
  }

  lemma StagedVerdicts(lib: Path, plan: Plan, e: Core, k: Core, some: seq<Touched>)
    requires CoreOk(lib, e) && Fileable(lib, plan) && Staged(plan, e, k, some)
    ensures CoreOk(lib, k)
    ensures SomeLinked(Verdicts(k, plan.slots)) == AnyLinked(e, plan.slots)
    ensures CompleteRun(Verdicts(k, plan.slots)) == AllFiled(e, plan.slots)
  {
    var slots := plan.slots;
    SomeTouchedBefore(lib, e, slots, some);
    forall i | 0 <= i < |slots| ensures Judge(k, slots[i]) == Judge(e, slots[i]) {
      StagedJudge(lib, plan, e, k, some, slots[i]);
    }
    VerdictsAgree(lib, k, slots);
  }

  /** A run over a staged disc leaves a staged disc, even if it raises. */
  lemma RunStaged(lib: Path, plan: Plan, e: Core, k: State, some: seq<Touched>) returns (more: seq<Touched>)
    requires CoreOk(lib, e) && Fileable(lib, plan) && Staged(plan, e, k.core, some)
    ensures Staged(plan, e, Run(k, plan).core, more)
    ensures Run(k, plan).filed ==> k.filed || AllFiled(e, plan.slots)
    ensures k.filed ==> Run(k, plan).filed
  {
    var slots, c := plan.slots, TouchAll(e, some);
    StagedVerdicts(lib, plan, e, k.core, some);
    var rest := SweepTouches(c, slots);
    TouchAllAppend(e, some, rest);
    more := some + rest;
    SweepShow(lib, c, plan, slots);
    var d := Sweep(c, slots).core;
    assert AddShow(AddShow(d, plan), plan) == AddShow(d, plan);
    if !Sweep(k.core, slots).raised {
      SweepUnraised(k.core, slots);
    }
  }

  /** And one that does not raise does what one run over the untouched disc does. */
  lemma RunFromStaged(lib: Path, plan: Plan, e: Core, k: Core, some: seq<Touched>, filed: bool)
    requires CoreOk(lib, e) && Fileable(lib, plan) && Staged(plan, e, k, some) && !Sweep(e, plan.slots).raised
    ensures var c := PlaceAll(e, plan.slots);
      && Run(State(e, filed), plan) == State(if plan.series && AnyLinked(e, plan.slots) then AddShow(c, plan) else c,
                                             filed || AllFiled(e, plan.slots))
      && Run(State(k, filed), plan) == Run(State(e, filed), plan)
  {
    var slots, c := plan.slots, PlaceAll(e, plan.slots);
    SomeTouchedBefore(lib, e, slots, some);
    StagedVerdicts(lib, plan, e, k, some);
    VerdictsAgree(lib, e, slots);
    StagedUnraised(lib, plan, e, k, some);
    assert PlaceAll(TouchAll(e, some), slots) == c;
    assert AddShow(AddShow(c, plan), plan) == AddShow(c, plan);
    ShowPlaceAll(lib, TouchAll(e, some), plan, slots);
  }

  lemma {:induction false} ShowPlaceAll(lib: Path, c: Core, plan: Plan, slots: seq<Slot>)
    requires Fileable(lib, plan) && forall s :: s in slots ==> s in plan.slots
    ensures PlaceAll(AddShow(c, plan), slots) == AddShow(PlaceAll(c, slots), plan)
    decreases |slots|
  {
    if slots != [] {
      assert slots[0] in slots;
      ShowJudge(lib, c, plan, slots[0]);
      ShowPlaceAll(lib, Place(c, slots[0]), plan, slots[1..]);
    }
  }

  lemma StagedUnraised(lib: Path, plan: Plan, e: Core, k: Core, some: seq<Touched>)
    requires CoreOk(lib, e) && Fileable(lib, plan) && Staged(plan, e, k, some) && !Sweep(e, plan.slots).raised
    ensures !Sweep(k, plan.slots).raised
  {
    var slots := plan.slots;
    TouchAllRows(e, e, slots, some);
    assert Rows(k, e, slots) by {
      assert k.placed == TouchAll(e, some).placed;
    }
    StagedVerdicts(lib, plan, e, k, some);
    forall i | 0 <= i < |slots| ensures Judge(k, slots[i]) == Judge(e, slots[i]) {
      StagedJudge(lib, plan, e, k, some, slots[i]);
    }
    RaisesOnlyIf(lib, k, e, slots);
  }

  /** A title that would be linked still would be, unless it already is and this is its file. */
  lemma EncodeStillLinked(lib: Path, c: Core, s: Slot, p: Path, n: Inode)
    requires CoreOk(lib, c) && SlotOk(lib, s) && NewFile(c, n) && (Lands(lib, c, p) ==> !Bound(c, c, s, p))
    ensures Judge(c, s).Linked? ==> Judge(Encode(lib, c, p, n), s).Linked?
    ensures Judge(c, s).NotFiled? ==> Judge(Encode(lib, c, p, n), s).NotFiled?
  {
  }

  lemma EncodeVerdicts(lib: Path, c: Core, slots: seq<Slot>, p: Path, n: Inode)
    requires CoreOk(lib, c) && PlanOk(lib, slots) && NewFile(c, n)
    requires forall i :: 0 <= i < |slots| ==> !Bound(c, c, slots[i], p)
    ensures AnyLinked(c, slots) ==> AnyLinked(Encode(lib, c, p, n), slots)
    ensures AllFiled(c, slots) ==> AllFiled(Encode(lib, c, p, n), slots)
  {
    forall i | 0 <= i < |slots|
      ensures Judge(c, slots[i]).Linked? ==> Judge(Encode(lib, c, p, n), slots[i]).Linked?
      ensures Judge(c, slots[i]).NotFiled? ==> Judge(Encode(lib, c, p, n), slots[i]).NotFiled? {
      EncodeStillLinked(lib, c, slots[i], p, n);
    }
  }

  /** The record of a touched title is where it was placed from. */
  lemma {:induction false} TouchedRecord(lib: Path, c: Core, slots: seq<Slot>, some: seq<Touched>, t: Touched)
    requires CoreOk(lib, c) && PlanOk(lib, slots) && Among(some, slots) && t in some
    requires !Judge(c, t.slot).NotFiled? && !Judge(c, t.slot).Waiting?
    ensures Recorded(TouchAll(c, some), t.slot, Judge(c, t.slot).src)
    decreases |some|
  {
    var h, s := some[0], t.slot;
    assert h in some;
    TouchJudge(lib, c, h, s);
    if t in some[1..] {
      TouchedRecord(lib, Touch(c, h), slots, some[1..], t);
    } else {
      assert h == t;
      RecordStays(lib, Touch(c, h), slots, some[1..], s, Judge(c, s).src);
    }
  }

  /** A record that is there, and names a file that is there, stays. */
  lemma {:induction false} RecordStays(lib: Path, c: Core, slots: seq<Slot>, some: seq<Touched>, s: Slot, r: Path)
    requires PlanOk(lib, slots) && Among(some, slots) && s in slots && Recorded(c, s, r) && r in c.links
    ensures Recorded(TouchAll(c, some), s, r)
    decreases |some|
  {
    if some != [] {
      var h := some[0];
      assert h in some;
      PlanIsApart(lib, slots);
      assert Recorded(Touch(c, h), s, r);
      RecordStays(lib, Touch(c, h), slots, some[1..], s, r);
    }
  }

  /** On a staged disc, an encode that replaces and brings back nothing can be moved. */
  lemma StagedMovable(lib: Path, start: Core, plan: Plan, e: Core, k: Core, some: seq<Touched>, p: Path, t: Touched)
    requires CoreOk(lib, e) && Fileable(lib, plan) && Staged(plan, e, k, some) && e.encoded == start.encoded
    requires t in some && Lands(lib, k, p)
    requires !Replaces(lib, start, plan, k, p) && !BringsBack(lib, start, plan, k, p)
    ensures Movable(e, t.slot, p)
  {
    var s, v := t.slot, Judge(e, t.slot);
    var i :| 0 <= i < |plan.slots| && plan.slots[i] == s;
    if !v.NotFiled? && !v.Waiting? {
      TouchedRecord(lib, e, plan.slots, some, t);
      StagedJudge(lib, plan, e, k, some, s);
      assert !Moved(start, k, plan.slots[i], p) && !Bound(start, k, plan.slots[i], p);
      if v.Linked? {
        TouchedIsThere(lib, e, plan.slots, some, t);
      }
    }
  }

  /** What an encode that replaces and brings back nothing does to a staged disc. */
  lemma EncodeStaged(lib: Path, start: Core, plan: Plan, e: Core, k: Core, some: seq<Touched>, p: Path, n: Inode)
    returns (rest: seq<Touched>)
    requires CoreOk(lib, e) && Fileable(lib, plan) && Staged(plan, e, k, some) && NewFile(k, n)
    requires e.encoded == start.encoded
    requires !Replaces(lib, start, plan, k, p) && !BringsBack(lib, start, plan, k, p)
    ensures Staged(plan, Encode(lib, e, p, n), Encode(lib, k, p, n), rest)
    ensures AllFiled(e, plan.slots) ==> AllFiled(Encode(lib, e, p, n), plan.slots)
  {
    var slots, c := plan.slots, TouchAll(e, some);
    TouchAllKeeps(e, some);
    TouchAllLands(lib, e, slots, some, p);
    ShowEncode(lib, c, plan, p, n);
    if Lands(lib, e, p) {
      forall i | 0 <= i < |slots| ensures !Bound(e, e, slots[i], p) {
        StagedJudge(lib, plan, e, k, some, slots[i]);
        assert !Bound(start, k, slots[i], p);
      }
      forall t | t in some ensures Movable(e, t.slot, p) {
        StagedMovable(lib, start, plan, e, k, some, p, t);
      }
      rest := EncodeAfterSome(lib, e, slots, some, p, n);
      EncodeVerdicts(lib, e, slots, p, n);
    } else {
      rest := some;
    }
  }

  lemma {:induction false} StagedReach(lib: Path, st: State, plan: Plan, acts: seq<Step>) returns (some: seq<Touched>)
    requires CoreOk(lib, st.core) && Fileable(lib, plan)
    requires Fresh(lib, st, plan, acts) && Settled(lib, st, plan, acts)
    ensures var k, e := Exec(lib, st, plan, acts), Encodes(lib, st.core, acts);
      && CoreOk(lib, e) && e.encoded == st.core.encoded && Staged(plan, e, k.core, some)
      && (k.filed ==> st.filed || AllFiled(e, plan.slots)) && (st.filed ==> k.filed)
      && (!Ran(acts) ==> some == [] && k == State(e, st.filed))
    decreases |acts|
  {
    if acts == [] {
      some := [];
    } else {
      var before, a := acts[..|acts| - 1], acts[|acts| - 1];
      assert acts == before + [a];
      some := StagedReach(lib, st, plan, before);
      var k, e := Exec(lib, st, plan, before), Encodes(lib, st.core, before);
      if a.FileRun? {
        some := RunStaged(lib, plan, e, k, some);
      } else {
        EncodeKeepsOk(lib, e, a.path, a.inode);
        if Ran(before) {
          some := EncodeStaged(lib, st.core, plan, e, k.core, some, a.path, a.inode);
        }
      }
    }
  }

  /** Filing is confluent: encodes finishing in any order with runs anywhere between them, some of
      which may have raised, end after one more run in the very state a single run after all
      the encodes reaches, as long as that one does not raise and no encode replaced the file
      of a linked title or brought back one that a record named before. */
  lemma FilingIsConfluent(lib: Path, st: State, plan: Plan, acts: seq<Step>)
    requires CoreOk(lib, st.core) && Fileable(lib, plan)
    requires Fresh(lib, st, plan, acts) && Settled(lib, st, plan, acts)
    requires !Sweep(Encodes(lib, st.core, acts), plan.slots).raised
    ensures Run(Exec(lib, st, plan, acts), plan) == Run(State(Encodes(lib, st.core, acts), st.filed), plan)
  {
    var some := StagedReach(lib, st, plan, acts);
    var k, e := Exec(lib, st, plan, acts), Encodes(lib, st.core, acts);
    RunFromStaged(lib, plan, e, k.core, some, k.filed);
    RunFromStaged(lib, plan, e, k.core, some, st.filed);
  }

  // ---------- the names of the library ----------

  predicate Blocked(c: Core, p: Path) { p in c.notes || p in c.dirs }

  /** Nothing was at the destination of `s`: only such a title can add a name. */
  predicate Free(c: Core, s: Slot) { s.dest.Some? && !Exists(c, s.dest.value) }

  function FreeSlots(c: Core, slots: seq<Slot>): seq<Slot> {
    if slots == [] then []
    else if Free(c, slots[0]) then [slots[0]] + FreeSlots(c, slots[1..])
    else FreeSlots(c, slots[1..])
  }

  lemma {:induction false} FreeMembers(c: Core, slots: seq<Slot>)
    ensures forall s :: s in FreeSlots(c, slots) <==> s in slots && Free(c, s)
  {
    if slots != [] {
      FreeMembers(c, slots[1..]);
      assert slots == [slots[0]] + slots[1..];
    }
  }

  lemma {:induction false} FreePlanOk(lib: Path, c: Core, slots: seq<Slot>)
    requires PlanOk(lib, slots)
    ensures PlanOk(lib, FreeSlots(c, slots))
  {
    if slots != [] {
      var s, rest := slots[0], FreeSlots(c, slots[1..]);
      FreePlanOk(lib, c, slots[1..]);
      FreeMembers(c, slots[1..]);
      forall j | 0 <= j < |rest| ensures Apart(s, rest[j]) && Apart(rest[j], s) {
        assert rest[j] in rest;
        var i :| 0 <= i < |slots[1..]| && slots[1..][i] == rest[j];
        assert slots[i + 1] == rest[j];
      }
    }
  }

  lemma PlanIsApart(lib: Path, slots: seq<Slot>)
    requires PlanOk(lib, slots)
    ensures forall s, t :: s in slots && t in slots ==> s == t || Apart(s, t)
    ensures forall s :: s in slots ==> SlotOk(lib, s)
  {
    forall s, t | s in slots && t in slots ensures s == t || Apart(s, t) {
      var i :| 0 <= i < |slots| && slots[i] == s;
      var j :| 0 <= j < |slots| && slots[j] == t;
    }
  }

  /** `c` and `d` agree on everything that decides the names of the titles in `fs`. */
  ghost predicate Alike(lib: Path, fs: seq<Slot>, c: Core, d: Core) {
    && c.links == d.links && (forall p :: Lands(lib, c, p) == Lands(lib, d, p))
    && (forall t :: t in fs ==> (t.title in c.encoded <==> t.title in d.encoded))
    && (forall t :: t in fs && t.title in c.encoded ==> c.encoded[t.title] == d.encoded[t.title])
    && (forall t :: t in fs && t.dest.Some? ==> Blocked(c, t.dest.value) == Blocked(d, t.dest.value))
  }

  lemma Reflexive(lib: Path, fs: seq<Slot>, c: Core)
    ensures Alike(lib, fs, c, c)
  {
  }

  lemma AlikeChain(lib: Path, fs: seq<Slot>, a: Core, b: Core, c: Core)
    requires Alike(lib, fs, a, b) && Alike(lib, fs, b, c)
    ensures Alike(lib, fs, a, c)
  {
    forall p ensures Lands(lib, a, p) == Lands(lib, c, p) {
      assert Lands(lib, a, p) == Lands(lib, b, p) == Lands(lib, c, p);
    }
  }

  lemma AlikeJudge(lib: Path, fs: seq<Slot>, c: Core, d: Core, t: Slot)
    requires Alike(lib, fs, c, d) && t in fs
    ensures Judge(c, t) == Judge(d, t)
  {
  }

  /** Touching a title does not block or free a destination, its own or another's. */
  lemma TouchBlocks(c: Core, h: Touched, t: Slot)
    requires (h.slot == t || Apart(h.slot, t)) && t.dest.Some? && IsMkv(t.dest.value)
    requires h.slot.dest.Some? ==> IsMkv(h.slot.dest.value)
    ensures Blocked(Touch(c, h), t.dest.value) == Blocked(c, t.dest.value)
  {
    if h.slot.dest.Some? {
      SidecarApart(h.slot.dest.value, t.dest.value);
      assert t.dest.value !in Ancestors(t.dest.value);
    }
  }

  lemma BothTouch(lib: Path, fs: seq<Slot>, c: Core, d: Core, h: Touched)
    requires PlanOk(lib, fs) && Alike(lib, fs, c, d) && h.slot in fs
    ensures Alike(lib, fs, Touch(c, h), Touch(d, h))
  {
    PlanIsApart(lib, fs);
    AlikeJudge(lib, fs, c, d, h.slot);
    forall p ensures Lands(lib, Touch(c, h), p) == Lands(lib, Touch(d, h), p) {
      TouchLands(lib, c, h, p);
      TouchLands(lib, d, h, p);
    }
    forall t | t in fs && t.dest.Some?
      ensures Blocked(Touch(c, h), t.dest.value) == Blocked(Touch(d, h), t.dest.value) {
      TouchBlocks(c, h, t);
      TouchBlocks(d, h, t);
    }
  }

  /** What was at a destination of the disc at the start is still at it, and nothing blocks more. */
  ghost predicate Kept(start: Core, slots: seq<Slot>, c: Core) {
    && (forall t :: t in slots && t.dest.Some? && t.dest.value in start.links ==> t.dest.value in c.links)
    && (forall t :: t in slots && t.dest.Some? ==> Blocked(c, t.dest.value) == Blocked(start, t.dest.value))
  }

  lemma TouchKept(lib: Path, start: Core, slots: seq<Slot>, c: Core, h: Touched)
    requires PlanOk(lib, slots) && Kept(start, slots, c) && h.slot in slots
    ensures Kept(start, slots, Touch(c, h))
  {
    PlanIsApart(lib, slots);
    forall t | t in slots && t.dest.Some? ensures Blocked(Touch(c, h), t.dest.value) == Blocked(start, t.dest.value) {
      TouchBlocks(c, h, t);
    }
  }

  /** A title whose destination was taken adds no name and changes nothing that matters to others. */
  lemma OneTouch(lib: Path, start: Core, slots: seq<Slot>, fs: seq<Slot>, c: Core, d: Core, h: Touched)
    requires PlanOk(lib, slots) && (forall s :: s in fs ==> s in slots) && Alike(lib, fs, c, d)
    requires Kept(start, slots, c) && h.slot in slots && h.slot !in fs && !Free(start, h.slot)
    ensures Alike(lib, fs, Touch(c, h), d)
  {
    PlanIsApart(lib, slots);
    forall p ensures Lands(lib, Touch(c, h), p) == Lands(lib, d, p) {
      TouchLands(lib, c, h, p);
    }
    forall t | t in fs && t.dest.Some? ensures Blocked(Touch(c, h), t.dest.value) == Blocked(d, t.dest.value) {
      TouchBlocks(c, h, t);
    }
  }

  function FreeOnly(start: Core, some: seq<Touched>): seq<Touched> {
    if some == [] then []
    else if Free(start, some[0].slot) then [some[0]] + FreeOnly(start, some[1..])
    else FreeOnly(start, some[1..])
  }

  lemma {:induction false} FreeOnlyAmong(start: Core, slots: seq<Slot>, some: seq<Touched>)
    requires Among(some, slots)
    ensures Among(FreeOnly(start, some), FreeSlots(start, slots))
    decreases |some|
  {
    FreeMembers(start, slots);
    if some != [] {
      assert some[0] in some;
      FreeOnlyAmong(start, slots, some[1..]);
    }
  }

  lemma {:induction false} AllTouch(lib: Path, start: Core, slots: seq<Slot>, c: Core, d: Core, some: seq<Touched>)
    requires PlanOk(lib, slots) && Among(some, slots) && Kept(start, slots, c)
    requires Alike(lib, FreeSlots(start, slots), c, d)
    ensures Alike(lib, FreeSlots(start, slots), TouchAll(c, some), TouchAll(d, FreeOnly(start, some)))
    ensures Kept(start, slots, TouchAll(c, some))
    decreases |some|
  {
    if some != [] {
      var h, fs := some[0], FreeSlots(start, slots);
      assert h in some;
      FreeMembers(start, slots);
      FreePlanOk(lib, start, slots);
      TouchKept(lib, start, slots, c, h);
      if Free(start, h.slot) {
        BothTouch(lib, fs, c, d, h);
        AllTouch(lib, start, slots, Touch(c, h), Touch(d, h), some[1..]);
        assert FreeOnly(start, some)[1..] == FreeOnly(start, some[1..]);
      } else {
        OneTouch(lib, start, slots, fs, c, d, h);
        AllTouch(lib, start, slots, Touch(c, h), d, some[1..]);
      }
    }
  }

  lemma ShowIsAlike(lib: Path, start: Core, plan: Plan, c: Core)
    requires Fileable(lib, plan)
    ensures Alike(lib, FreeSlots(start, plan.slots), AddShow(c, plan), c)
    ensures Kept(start, plan.slots, c) ==> Kept(start, plan.slots, AddShow(c, plan))
  {
    FreeMembers(start, plan.slots);
    PlanIsApart(lib, plan.slots);
    forall p ensures Lands(lib, AddShow(c, plan), p) == Lands(lib, c, p) {
    }
    forall t | t in plan.slots && t.dest.Some?
      ensures Blocked(AddShow(c, plan), t.dest.value) == Blocked(c, t.dest.value) {
      assert SlotOk(lib, t) && t.dest.value != plan.show;
    }
  }

  lemma BothEncode(lib: Path, fs: seq<Slot>, c: Core, d: Core, p: Path, n: Inode)
    requires PlanOk(lib, fs) && Alike(lib, fs, c, d)
    ensures Alike(lib, fs, Encode(lib, c, p, n), Encode(lib, d, p, n))
  {
    PlanIsApart(lib, fs);
    var c', d' := Encode(lib, c, p, n), Encode(lib, d, p, n);
    assert Lands(lib, c, p) == Lands(lib, d, p);
    forall q ensures Lands(lib, c', q) == Lands(lib, d', q) {
      assert Lands(lib, c', q) == Lands(lib, c, q) && Lands(lib, d', q) == Lands(lib, d, q);
      assert Lands(lib, c, q) == Lands(lib, d, q);
    }
    forall t | t in fs && t.dest.Some? ensures Blocked(c', t.dest.value) == Blocked(d', t.dest.value) {
      assert SlotOk(lib, t);
    }
  }

  lemma EncodeKept(lib: Path, start: Core, slots: seq<Slot>, c: Core, p: Path, n: Inode)
    requires PlanOk(lib, slots) && Kept(start, slots, c)
    ensures Kept(start, slots, Encode(lib, c, p, n))
  {
    PlanIsApart(lib, slots);
    forall t | t in slots && t.dest.Some?
      ensures Blocked(Encode(lib, c, p, n), t.dest.value) == Blocked(start, t.dest.value) {
      assert SlotOk(lib, t);
    }
  }

  /** `k` has the names of `e` with some of the titles touched early whose destination was free. */
  ghost predicate NamesStaged(lib: Path, start: Core, plan: Plan, e: Core, k: Core, some: seq<Touched>) {
    var fs := FreeSlots(start, plan.slots);
    Among(some, fs) && Alike(lib, fs, k, TouchAll(e, some)) && Kept(start, plan.slots, k)
  }

  lemma NamesJudge(lib: Path, start: Core, plan: Plan, e: Core, k: Core, some: seq<Touched>, s: Slot)
    requires CoreOk(lib, e) && Fileable(lib, plan) && NamesStaged(lib, start, plan, e, k, some)
    requires s in plan.slots && Free(start, s)
    ensures Judge(k, s) == Judge(e, s)
  {
    var fs := FreeSlots(start, plan.slots);
    FreeMembers(start, plan.slots);
    FreePlanOk(lib, start, plan.slots);
    AlikeJudge(lib, fs, k, TouchAll(e, some), s);
    JudgeSteadyAll(lib, e, fs, some, s);
  }

  lemma RunNames(lib: Path, start: Core, plan: Plan, e: Core, k: State, some: seq<Touched>) returns (more: seq<Touched>)
    requires Fileable(lib, plan) && NamesStaged(lib, start, plan, e, k.core, some)
    ensures NamesStaged(lib, start, plan, e, Run(k, plan).core, more)
  {
    var slots, fs := plan.slots, FreeSlots(start, plan.slots);
    var rest := SweepTouches(k.core, slots);
    AllTouch(lib, start, slots, k.core, TouchAll(e, some), rest);
    FreeOnlyAmong(start, slots, rest);
    TouchAllAppend(e, some, FreeOnly(start, rest));
    more := some + FreeOnly(start, rest);
    var d := Sweep(k.core, slots).core;
    if !Sweep(k.core, slots).raised {
      SweepUnraised(k.core, slots);
      ShowIsAlike(lib, start, plan, d);
      AlikeChain(lib, fs, AddShow(d, plan), d, TouchAll(e, more));
    }
  }

  /** What encodes alone never do: touch the library, the records or the placements. */
  ghost predicate OnlyEncoded(lib: Path, start: Core, e: Core) {
    && CoreOk(lib, e) && e.encoded == start.encoded && e.placed == start.placed
    && (forall p :: p in start.links ==> p in e.links)
    && (forall p :: Under(lib, p) ==> (p in e.links <==> p in start.links) && Blocked(e, p) == Blocked(start, p))
    && (forall p :: Under(lib, p) && p in start.links ==> e.links[p] == start.links[p])
  }

  lemma {:induction false} EncodesKeep(lib: Path, c: Core, acts: seq<Step>)
    requires CoreOk(lib, c)
    ensures OnlyEncoded(lib, c, Encodes(lib, c, acts))
    decreases |acts|
  {
    if acts != [] {
      EncodesKeep(lib, c, acts[..|acts| - 1]);
    }
  }

  /** A free title touched early that did something is linked, and has its name. */
  lemma FreeIsLinked(lib: Path, start: Core, plan: Plan, e: Core, k: Core, some: seq<Touched>, t: Touched)
    requires OnlyEncoded(lib, start, e) && Fileable(lib, plan) && NamesStaged(lib, start, plan, e, k, some)
    requires t in some && !Judge(e, t.slot).NotFiled? && !Judge(e, t.slot).Waiting?
    ensures t.slot in plan.slots && t.slot.dest.Some? && t.slot.dest.value !in start.links
    ensures Judge(e, t.slot).Linked? && Judge(k, t.slot) == Judge(e, t.slot) && t.slot.dest.value in k.links
  {
    var s := t.slot;
    FreeMembers(start, plan.slots);
    FreePlanOk(lib, start, plan.slots);
    PlanIsApart(lib, plan.slots);
    assert s in plan.slots && Free(start, s);
    assert !Exists(e, s.dest.value);
    NamesJudge(lib, start, plan, e, k, some, s);
    TouchedIsThere(lib, e, FreeSlots(start, plan.slots), some, t);
  }

  lemma EncodeNames(lib: Path, start: Core, plan: Plan, e: Core, k: Core, some: seq<Touched>, p: Path, n: Inode)
    returns (rest: seq<Touched>)
    requires OnlyEncoded(lib, start, e) && Fileable(lib, plan) && NamesStaged(lib, start, plan, e, k, some)
    requires NewFile(k, n) && !ReplacesNew(lib, start, plan, k, p)
    ensures NamesStaged(lib, start, plan, Encode(lib, e, p, n), Encode(lib, k, p, n), rest)
  {
    var fs, c := FreeSlots(start, plan.slots), TouchAll(e, some);
    FreePlanOk(lib, start, plan.slots);
    TouchAllKeeps(e, some);
    TouchAllLands(lib, e, fs, some, p);
    BothEncode(lib, fs, k, c, p, n);
    EncodeKept(lib, start, plan.slots, k, p, n);
    assert Lands(lib, k, p) == Lands(lib, e, p);
    if Lands(lib, e, p) {
      forall t | t in some ensures Movable(e, t.slot, p) {
        if !Judge(e, t.slot).NotFiled? && !Judge(e, t.slot).Waiting? {
          FreeIsLinked(lib, start, plan, e, k, some, t);
          var i :| 0 <= i < |plan.slots| && plan.slots[i] == t.slot;
          assert !Bound(start, k, plan.slots[i], p);
        }
      }
      rest := EncodeAfterSome(lib, e, fs, some, p, n);
    } else {
      rest := some;
    }
  }

  lemma {:induction false} NamesReach(lib: Path, st: State, plan: Plan, acts: seq<Step>) returns (some: seq<Touched>)
    requires CoreOk(lib, st.core) && Fileable(lib, plan)
    requires Fresh(lib, st, plan, acts) && NamesSettled(lib, st, plan, acts)
    ensures NamesStaged(lib, st.core, plan, Encodes(lib, st.core, acts), Exec(lib, st, plan, acts).core, some)
    decreases |acts|
  {
    if acts == [] {
      some := [];
      Reflexive(lib, FreeSlots(st.core, plan.slots), st.core);
    } else {
      var before, a := acts[..|acts| - 1], acts[|acts| - 1];
      some := NamesReach(lib, st, plan, before);
      var k, e := Exec(lib, st, plan, before), Encodes(lib, st.core, before);
      EncodesKeep(lib, st.core, before);
      if a.FileRun? {
        some := RunNames(lib, st.core, plan, e, k, some);
      } else {
        some := EncodeNames(lib, st.core, plan, e, k.core, some, a.path, a.inode);
      }
    }
  }

  function Fulls(slots: seq<Slot>): seq<Touched> {
    if slots == [] then [] else [Touched(slots[0], true)] + Fulls(slots[1..])
  }

  lemma {:induction false} FullsPlace(c: Core, start: Core, slots: seq<Slot>)
    ensures TouchAll(c, Fulls(slots)) == PlaceAll(c, slots)
    ensures FreeOnly(start, Fulls(slots)) == Fulls(FreeSlots(start, slots))
    ensures Among(Fulls(slots), slots)
    decreases |slots|
  {
    if slots != [] {
      FullsPlace(Place(c, slots[0]), start, slots[1..]);
      assert Fulls(slots)[1..] == Fulls(slots[1..]);
    }
  }

  /** The names a whole run leaves are those it gives the titles whose destination was free. */
  lemma WholeNames(lib: Path, start: Core, slots: seq<Slot>, c: Core, d: Core)
    requires PlanOk(lib, slots) && Kept(start, slots, c) && Alike(lib, FreeSlots(start, slots), c, d)
    ensures PlaceAll(c, slots).links == PlaceAll(d, FreeSlots(start, slots)).links
  {
    FullsPlace(c, start, slots);
    FullsPlace(d, start, FreeSlots(start, slots));
    AllTouch(lib, start, slots, c, d, Fulls(slots));
  }

  lemma NamesSame(lib: Path, st: State, plan: Plan, acts: seq<Step>)
    requires CoreOk(lib, st.core) && Fileable(lib, plan)
    requires Fresh(lib, st, plan, acts) && NamesSettled(lib, st, plan, acts)
    requires !Sweep(Encodes(lib, st.core, acts), plan.slots).raised
    requires !Sweep(Exec(lib, st, plan, acts).core, plan.slots).raised
    ensures Run(Exec(lib, st, plan, acts), plan).core.links
         == Run(State(Encodes(lib, st.core, acts), st.filed), plan).core.links
  {
    var start, slots, fs := st.core, plan.slots, FreeSlots(st.core, plan.slots);
    var k, e := Exec(lib, st, plan, acts), Encodes(lib, st.core, acts);
    var some := NamesReach(lib, st, plan, acts);
    EncodesKeep(lib, start, acts);
    FreePlanOk(lib, start, slots);
    PlanIsApart(lib, slots);
    assert Kept(start, slots, e);
    Reflexive(lib, fs, e);
    WholeNames(lib, start, slots, e, e);
    WholeNames(lib, start, slots, k.core, TouchAll(e, some));
    SomeTouchedBefore(lib, e, fs, some);
  }

  // ---------- and when the run after it all does not raise ----------

  /** Outside the library the files are those of the encodes, and what was in it stays. */
  ghost predicate SoundFiles(lib: Path, start: Core, e: Core, k: Core) {
    && (forall p :: Lands(lib, k, p) == Lands(lib, e, p))
    && (forall p :: !Under(lib, p) ==> (p in k.links <==> p in e.links))
    && (forall p :: !Under(lib, p) && p in k.links ==> k.links[p] == e.links[p])
    && (forall p :: p in start.links && Under(lib, p) ==> p in k.links && k.links[p] == start.links[p])
  }

  /** A record is the old one, or names a file that is there. */
  ghost predicate SoundRecords(start: Core, k: Core) {
    && (forall t :: t in start.encoded ==> t in k.encoded)
    && (forall t :: t in k.encoded && k.encoded[t] !in k.links ==>
          t in start.encoded && start.encoded[t] == k.encoded[t])
  }

  /** Whatever happens, records stay outside the library and placements are old ones or a title's own. */
  ghost predicate Sound(lib: Path, start: Core, slots: seq<Slot>, e: Core, k: Core) {
    CoreOk(lib, k) && Rows(k, start, slots) && SoundFiles(lib, start, e, k) && SoundRecords(start, k)
  }

  lemma TouchFiles(lib: Path, start: Core, e: Core, k: Core, h: Touched)
    requires SlotOk(lib, h.slot) && SoundFiles(lib, start, e, k)
    ensures SoundFiles(lib, start, e, Touch(k, h))
  {
    forall p ensures Lands(lib, Touch(k, h), p) == Lands(lib, e, p) {
      TouchLands(lib, k, h, p);
    }
  }

  lemma TouchRecords(start: Core, k: Core, h: Touched)
    requires SoundRecords(start, k)
    ensures SoundRecords(start, Touch(k, h))
  {
  }

  lemma TouchSound(lib: Path, start: Core, slots: seq<Slot>, e: Core, k: Core, h: Touched)
    requires PlanOk(lib, slots) && Sound(lib, start, slots, e, k) && h.slot in slots
    ensures Sound(lib, start, slots, e, Touch(k, h))
  {
    assert SlotOk(lib, h.slot) by {
      PlanIsApart(lib, slots);
    }
    TouchJudge(lib, k, h, h.slot);
    assert Rows(Touch(k, h), start, slots) by {
      TouchAllRows(k, start, slots, [h]);
      assert [h][1..] == [] && TouchAll(k, [h]) == Touch(k, h);
    }
    TouchFiles(lib, start, e, k, h);
    TouchRecords(start, k, h);
  }

  lemma {:induction false} TouchAllSound(lib: Path, start: Core, slots: seq<Slot>, e: Core, k: Core, some: seq<Touched>)
    requires PlanOk(lib, slots) && Sound(lib, start, slots, e, k) && Among(some, slots)
    ensures Sound(lib, start, slots, e, TouchAll(k, some))
    decreases |some|
  {
    if some != [] {
      assert some[0] in some;
      TouchSound(lib, start, slots, e, k, some[0]);
      TouchAllSound(lib, start, slots, e, Touch(k, some[0]), some[1..]);
    }
  }

  lemma RunSound(lib: Path, start: Core, plan: Plan, e: Core, k: State)
    requires Fileable(lib, plan) && Sound(lib, start, plan.slots, e, k.core)
    ensures Sound(lib, start, plan.slots, e, Run(k, plan).core)
  {
    var some := SweepTouches(k.core, plan.slots);
    TouchAllSound(lib, start, plan.slots, e, k.core, some);
    if !Sweep(k.core, plan.slots).raised {
      SweepUnraised(k.core, plan.slots);
      ShowSound(lib, start, plan, e, Sweep(k.core, plan.slots).core);
    }
  }

  lemma ShowSound(lib: Path, start: Core, plan: Plan, e: Core, k: Core)
    requires Sound(lib, start, plan.slots, e, k)
    ensures Sound(lib, start, plan.slots, e, AddShow(k, plan))
  {
    forall p ensures Lands(lib, AddShow(k, plan), p) == Lands(lib, e, p) {
      assert Lands(lib, k, p) == Lands(lib, e, p);
    }
  }

  lemma EncodeFiles(lib: Path, start: Core, e: Core, k: Core, p: Path, n: Inode)
    requires SoundFiles(lib, start, e, k)
    ensures SoundFiles(lib, start, Encode(lib, e, p, n), Encode(lib, k, p, n))
  {
    assert Lands(lib, k, p) == Lands(lib, e, p);
    forall q ensures Lands(lib, Encode(lib, k, p, n), q) == Lands(lib, Encode(lib, e, p, n), q) {
      assert Lands(lib, k, q) == Lands(lib, e, q);
    }
  }

  lemma EncodeSound(lib: Path, start: Core, slots: seq<Slot>, e: Core, k: Core, p: Path, n: Inode)
    requires Sound(lib, start, slots, e, k)
    ensures Sound(lib, start, slots, Encode(lib, e, p, n), Encode(lib, k, p, n))
  {
    var k' := Encode(lib, k, p, n);
    EncodeFiles(lib, start, e, k, p, n);
    assert k'.placed == k.placed && k'.encoded == k.encoded;
    assert Rows(k', start, slots);
    assert SoundRecords(start, k');
  }

  lemma {:induction false} SoundReach(lib: Path, st: State, plan: Plan, acts: seq<Step>)
    requires CoreOk(lib, st.core) && Fileable(lib, plan)
    ensures Sound(lib, st.core, plan.slots, Encodes(lib, st.core, acts), Exec(lib, st, plan, acts).core)
    decreases |acts|
  {
    if acts != [] {
      var before, a := acts[..|acts| - 1], acts[|acts| - 1];
      SoundReach(lib, st, plan, before);
      var k, e := Exec(lib, st, plan, before), Encodes(lib, st.core, before);
      if a.FileRun? {
        RunSound(lib, st.core, plan, e, k);
      } else {
        EncodeSound(lib, st.core, plan.slots, e, k.core, a.path, a.inode);
      }
    }
  }

  /** The two states find the same file for every title. */
  ghost predicate SameSources(slots: seq<Slot>, e: Core, k: Core) {
    forall s :: s in slots ==> Source(k, s) == Source(e, s)
  }

  lemma TouchSources(lib: Path, slots: seq<Slot>, k: Core, h: Touched, s: Slot)
    requires PlanOk(lib, slots) && h.slot in slots && s in slots && CoreOk(lib, k)
    ensures Source(Touch(k, h), s) == Source(k, s)
  {
    PlanIsApart(lib, slots);
    SourceSteady(lib, k, h.slot, s);
  }

  lemma {:induction false} TouchAllSources(lib: Path, slots: seq<Slot>, k: Core, some: seq<Touched>, s: Slot)
    requires PlanOk(lib, slots) && Among(some, slots) && s in slots && CoreOk(lib, k)
    ensures Source(TouchAll(k, some), s) == Source(k, s)
    decreases |some|
  {
    if some != [] {
      assert some[0] in some;
      PlanIsApart(lib, slots);
      TouchSources(lib, slots, k, some[0], s);
      TouchJudge(lib, k, some[0], some[0].slot);
      TouchAllSources(lib, slots, Touch(k, some[0]), some[1..], s);
    }
  }

  lemma EncodeSources(lib: Path, start: Core, plan: Plan, e: Core, k: Core, p: Path, n: Inode, s: Slot)
    requires OnlyEncoded(lib, start, e) && PlanOk(lib, plan.slots) && Sound(lib, start, plan.slots, e, k)
    requires s in plan.slots && Source(k, s) == Source(e, s) && !BringsBack(lib, start, plan, k, p)
    ensures Source(Encode(lib, k, p, n), s) == Source(Encode(lib, e, p, n), s)
  {
    PlanIsApart(lib, plan.slots);
    assert SlotOk(lib, s);
    assert Lands(lib, k, p) == Lands(lib, e, p);
    if Lands(lib, k, p) {
      var i :| 0 <= i < |plan.slots| && plan.slots[i] == s;
      assert !Moved(start, k, plan.slots[i], p);
    }
  }

  lemma {:induction false} SourcesReach(lib: Path, st: State, plan: Plan, acts: seq<Step>)
    requires CoreOk(lib, st.core) && Fileable(lib, plan) && NoneBack(lib, st, plan, acts)
    ensures SameSources(plan.slots, Encodes(lib, st.core, acts), Exec(lib, st, plan, acts).core)
    decreases |acts|
  {
    if acts != [] {
      var before, a := acts[..|acts| - 1], acts[|acts| - 1];
      SourcesReach(lib, st, plan, before);
      SoundReach(lib, st, plan, before);
      EncodesKeep(lib, st.core, before);
      var k, e := Exec(lib, st, plan, before), Encodes(lib, st.core, before);
      forall s | s in plan.slots
        ensures Source(Exec(lib, st, plan, acts).core, s) == Source(Encodes(lib, st.core, acts), s) {
        if a.FileRun? {
          RunSources(lib, k, plan, s);
        } else {
          EncodeSources(lib, st.core, plan, e, k.core, a.path, a.inode, s);
        }
      }
    }
  }

  lemma RunSources(lib: Path, k: State, plan: Plan, s: Slot)
    requires Fileable(lib, plan) && CoreOk(lib, k.core) && s in plan.slots
    ensures Source(Run(k, plan).core, s) == Source(k.core, s)
  {
    var some := SweepTouches(k.core, plan.slots);
    TouchAllSources(lib, plan.slots, k.core, some, s);
    if !Sweep(k.core, plan.slots).raised {
      SweepUnraised(k.core, plan.slots);
    }
  }

  /** With the same sources, titles whose destination was taken are judged alike too. */
  lemma SameVerdict(lib: Path, start: Core, plan: Plan, e: Core, k: Core, some: seq<Touched>, s: Slot)
    requires OnlyEncoded(lib, start, e) && Fileable(lib, plan) && NamesStaged(lib, start, plan, e, k, some)
    requires Sound(lib, start, plan.slots, e, k) && SameSources(plan.slots, e, k) && s in plan.slots
    ensures Judge(k, s) == Judge(e, s)
  {
    PlanIsApart(lib, plan.slots);
    assert SlotOk(lib, s) && Source(k, s) == Source(e, s);
    if Free(start, s) {
      NamesJudge(lib, start, plan, e, k, some, s);
    } else if s.dest.Some? {
      SourceOutside(lib, e, s);
      if s.dest.value !in start.links {
        TakenStaysTaken(lib, start, plan, e, k, some, s);
      }
    }
  }

  lemma SourceOutside(lib: Path, c: Core, s: Slot)
    requires CoreOk(lib, c) && SlotOk(lib, s)
    ensures Source(c, s).Some? ==> !Under(lib, Source(c, s).value) && Source(c, s).value in c.links
  {
  }

  /** Where a note or a directory was in the way there never is a link. */
  lemma TakenStaysTaken(lib: Path, start: Core, plan: Plan, e: Core, k: Core, some: seq<Touched>, s: Slot)
    requires OnlyEncoded(lib, start, e) && Fileable(lib, plan) && NamesStaged(lib, start, plan, e, k, some)
    requires s in plan.slots && s.dest.Some? && s.dest.value !in start.links && !Free(start, s)
    ensures s.dest.value !in k.links && s.dest.value !in e.links && Blocked(k, s.dest.value) && Blocked(e, s.dest.value)
  {
    PlanIsApart(lib, plan.slots);
    assert SlotOk(lib, s);
    NewNamesWereFree(lib, start, plan, e, some, s);
  }

  /** Touching free titles adds only their own names. */
  lemma NewNamesWereFree(lib: Path, start: Core, plan: Plan, e: Core, some: seq<Touched>, s: Slot)
    requires OnlyEncoded(lib, start, e) && Fileable(lib, plan) && Among(some, FreeSlots(start, plan.slots))
    requires s in plan.slots && s.dest.Some? && s.dest.value !in start.links && !Free(start, s)
    ensures s.dest.value !in TouchAll(e, some).links
  {
    PlanIsApart(lib, plan.slots);
    FreeMembers(start, plan.slots);
    assert SlotOk(lib, s);
    OthersNames(e, some, s.dest.value);
  }

  lemma {:induction false} OthersNames(c: Core, some: seq<Touched>, p: Path)
    requires p !in c.links && forall t :: t in some ==> t.slot.dest != Some(p)
    ensures p !in TouchAll(c, some).links
    decreases |some|
  {
    if some != [] {
      assert some[0] in some;
      OthersNames(Touch(c, some[0]), some[1..], p);
    }
  }

  lemma NamesUnraised(lib: Path, st: State, plan: Plan, acts: seq<Step>)
    requires CoreOk(lib, st.core) && Fileable(lib, plan) && Fresh(lib, st, plan, acts)
    requires NamesSettled(lib, st, plan, acts) && NoneBack(lib, st, plan, acts)
    requires !Sweep(Encodes(lib, st.core, acts), plan.slots).raised
    ensures !Sweep(Exec(lib, st, plan, acts).core, plan.slots).raised
  {
    var k, e, slots := Exec(lib, st, plan, acts).core, Encodes(lib, st.core, acts), plan.slots;
    var some := NamesReach(lib, st, plan, acts);
    EncodesKeep(lib, st.core, acts);
    SoundReach(lib, st, plan, acts);
    SourcesReach(lib, st, plan, acts);
    assert Rows(k, e, slots);
    forall i | 0 <= i < |slots| ensures Judge(k, slots[i]) == Judge(e, slots[i]) {
      SameVerdict(lib, st.core, plan, e, k, some, slots[i]);
    }
    RaisesOnlyIf(lib, k, e, slots);
  }

  // ---------- and only then ----------

  /** The library name of `s` is stuck on a file that one run over the encodes alone, in
      state `e`, would not link. */
  ghost predicate Stuck(k: Core, e: Core, s: Slot, n: Inode) {
    && s.dest.Some? && s.dest.value in k.links && k.links[s.dest.value] == n
    && s.dest.value !in e.links && Judge(e, s).Linked? && Judge(e, s).inode != n
  }

  /** A title not linked yet will be linked from whatever is at its source, or is brought back. */
  lemma EncodeRelinks(lib: Path, e: Core, s: Slot, p: Path, n: Inode)
    requires CoreOk(lib, e) && SlotOk(lib, s) && Lands(lib, e, p)
    requires Judge(e, s).Linked? && (Judge(e, s).src == p || Recorded(e, s, p))
    requires s.dest.Some? && s.dest.value !in e.links
    ensures Judge(Encode(lib, e, p, n), s) == Linked(p, n) && s.dest.value !in Encode(lib, e, p, n).links
  {
  }

  lemma StuckAtFirst(lib: Path, start: Core, plan: Plan, e: Core, k: Core, some: seq<Touched>, p: Path, n: Inode)
    returns (s: Slot, m: Inode)
    requires OnlyEncoded(lib, start, e) && Fileable(lib, plan) && NamesStaged(lib, start, plan, e, k, some)
    requires NewFile(k, n) && ReplacesNew(lib, start, plan, k, p)
    ensures s in plan.slots && Stuck(Encode(lib, k, p, n), Encode(lib, e, p, n), s, m)
  {
    var i :| 0 <= i < |plan.slots| && Bound(start, k, plan.slots[i], p) && plan.slots[i].dest.value !in start.links;
    s := plan.slots[i];
    m := k.links[s.dest.value];
    if !Free(start, s) {
      NewNamesWereFree(lib, start, plan, e, some, s);
    }
    NamesJudge(lib, start, plan, e, k, some, s);
    assert Lands(lib, e, p) by {
      FreePlanOk(lib, start, plan.slots);
      TouchAllLands(lib, e, FreeSlots(start, plan.slots), some, p);
      assert Lands(lib, k, p) == Lands(lib, TouchAll(e, some), p);
    }
    assert SlotOk(lib, s);
    EncodeRelinks(lib, e, s, p, n);
    assert Encode(lib, k, p, n).links[s.dest.value] == m;
  }

  lemma StuckStays(lib: Path, k: Core, e: Core, s: Slot, m: Inode, p: Path, n: Inode)
    requires CoreOk(lib, e) && SlotOk(lib, s) && Stuck(k, e, s, m) && NewFile(k, n)
    ensures Stuck(Encode(lib, k, p, n), Encode(lib, e, p, n), s, m)
  {
  }

  lemma {:induction false} Diverges(lib: Path, st: State, plan: Plan, acts: seq<Step>) returns (s: Slot, m: Inode)
    requires CoreOk(lib, st.core) && Fileable(lib, plan)
    requires Fresh(lib, st, plan, acts) && !NamesSettled(lib, st, plan, acts)
    ensures s in plan.slots && Stuck(Exec(lib, st, plan, acts).core, Encodes(lib, st.core, acts), s, m)
    decreases |acts|
  {
    var before, a := acts[..|acts| - 1], acts[|acts| - 1];
    var k, e := Exec(lib, st, plan, before), Encodes(lib, st.core, before);
    EncodesKeep(lib, st.core, before);
    if NamesSettled(lib, st, plan, before) {
      var some := NamesReach(lib, st, plan, before);
      s, m := StuckAtFirst(lib, st.core, plan, e, k.core, some, a.path, a.inode);
    } else {
      s, m := Diverges(lib, st, plan, before);
      assert SlotOk(lib, s);
      if a.Encoded? {
        StuckStays(lib, k.core, e, s, m, a.path, a.inode);
      } else {
        RunKeeps(k, plan);
      }
    }
  }

  lemma NamesDiffer(lib: Path, st: State, plan: Plan, acts: seq<Step>)
    requires CoreOk(lib, st.core) && Fileable(lib, plan)
    requires Fresh(lib, st, plan, acts) && !NamesSettled(lib, st, plan, acts)
    requires !Sweep(Encodes(lib, st.core, acts), plan.slots).raised
    ensures Run(Exec(lib, st, plan, acts), plan).core.links
         != Run(State(Encodes(lib, st.core, acts), st.filed), plan).core.links
  {
    var s, m := Diverges(lib, st, plan, acts);
    var k, e := Exec(lib, st, plan, acts), Encodes(lib, st.core, acts);
    EncodesKeep(lib, st.core, acts);
    RunKeeps(k, plan);
    var all := SweepTouches(e, plan.slots);
    TouchedIsThere(lib, e, plan.slots, all, Touched(s, true));
    SweepUnraised(e, plan.slots);
    assert Run(k, plan).core.links[s.dest.value] == m;
    assert Run(State(e, st.filed), plan).core.links[s.dest.value] != m;
  }

  /** From any start, whatever is in the library and on record, and whichever runs raised in
      between: when the single run after all the encodes does not raise, and neither does the
      one after the interleaving, the names of the library end the same if and only if no
      encode landed on the file of a title newly linked, or on the one its record had named.
      The second of the two runs cannot raise alone unless a recorded file was brought back. */
  lemma NamesConfluentIff(lib: Path, st: State, plan: Plan, acts: seq<Step>)
    requires CoreOk(lib, st.core) && Fileable(lib, plan)
    requires Fresh(lib, st, plan, acts) && !Sweep(Encodes(lib, st.core, acts), plan.slots).raised
    ensures var k, e := Exec(lib, st, plan, acts), Encodes(lib, st.core, acts);
      var same := Run(k, plan).core.links == Run(State(e, st.filed), plan).core.links;
      && (same ==> NamesSettled(lib, st, plan, acts))
      && (NamesSettled(lib, st, plan, acts) && !Sweep(k.core, plan.slots).raised ==> same)
      && (NamesSettled(lib, st, plan, acts) && NoneBack(lib, st, plan, acts) ==> !Sweep(k.core, plan.slots).raised)
  {
    if !NamesSettled(lib, st, plan, acts) {
      NamesDiffer(lib, st, plan, acts);
    } else {
      if NoneBack(lib, st, plan, acts) {
        NamesUnraised(lib, st, plan, acts);
      }
      if !Sweep(Exec(lib, st, plan, acts).core, plan.slots).raised {
        NamesSame(lib, st, plan, acts);
      }
    }
  }

  // ---------- the whole state, exactly ----------

  /** A file brought back: the run's record names another one, for good. */
  ghost predicate Misrecorded(k: Core, e: Core, s: Slot, p: Path, r: Path) {
    p != r && Recorded(k, s, r) && r in k.links && Recorded(e, s, p) && p in e.links
  }

  lemma {:induction false} BackDiverges(lib: Path, st: State, plan: Plan, acts: seq<Step>)
    returns (s: Slot, p: Path, r: Path)
    requires CoreOk(lib, st.core) && Fileable(lib, plan) && !NoneBack(lib, st, plan, acts)
    ensures s in plan.slots && Misrecorded(Exec(lib, st, plan, acts).core, Encodes(lib, st.core, acts), s, p, r)
    decreases |acts|
  {
    var before, a := acts[..|acts| - 1], acts[|acts| - 1];
    var k, e := Exec(lib, st, plan, before), Encodes(lib, st.core, before);
    EncodesKeep(lib, st.core, before);
    SoundReach(lib, st, plan, before);
    if NoneBack(lib, st, plan, before) {
      var i :| 0 <= i < |plan.slots| && Moved(st.core, k.core, plan.slots[i], a.path);
      s, p := plan.slots[i], a.path;
      r := k.core.encoded[s.title];
      assert Lands(lib, k.core, p) == Lands(lib, e, p);
    } else {
      s, p, r := BackDiverges(lib, st, plan, before);
      if a.FileRun? {
        RunRecords(lib, k, plan, s, r);
      }
    }
  }

  lemma RunRecords(lib: Path, k: State, plan: Plan, s: Slot, r: Path)
    requires Fileable(lib, plan) && s in plan.slots && Recorded(k.core, s, r) && r in k.core.links
    ensures Recorded(Run(k, plan).core, s, r) && r in Run(k, plan).core.links
  {
    var some := SweepTouches(k.core, plan.slots);
    RecordStays(lib, k.core, plan.slots, some, s, r);
    RunKeeps(k, plan);
    if !Sweep(k.core, plan.slots).raised {
      SweepUnraised(k.core, plan.slots);
    }
  }

  /** No title of the disc is linked yet. */
  ghost predicate NoneLinked(c: Core, slots: seq<Slot>) {
    forall i :: 0 <= i < |slots| && Judge(c, slots[i]).Linked? && slots[i].dest.Some? ==>
      slots[i].dest.value !in c.links
  }

  lemma EncodeKeepsNoneLinked(lib: Path, c: Core, slots: seq<Slot>, p: Path, n: Inode)
    requires CoreOk(lib, c) && PlanOk(lib, slots) && NoneLinked(c, slots) && NewFile(c, n)
    ensures NoneLinked(Encode(lib, c, p, n), slots)
  {
  }

  /** Then no title whose name was there at the start ever gets linked, and the conditions on the
      names and on the records are the condition on the whole. */
  lemma {:induction false} SettledAlike(lib: Path, st: State, plan: Plan, acts: seq<Step>)
    requires CoreOk(lib, st.core) && Fileable(lib, plan) && Fresh(lib, st, plan, acts)
    requires NoneLinked(st.core, plan.slots) && NamesSettled(lib, st, plan, acts) && NoneBack(lib, st, plan, acts)
    ensures Settled(lib, st, plan, acts) && NoneLinked(Encodes(lib, st.core, acts), plan.slots)
    decreases |acts|
  {
    if acts != [] {
      var before, a := acts[..|acts| - 1], acts[|acts| - 1];
      SettledAlike(lib, st, plan, before);
      if a.Encoded? {
        var k, e := Exec(lib, st, plan, before).core, Encodes(lib, st.core, before);
        var some := NamesReach(lib, st, plan, before);
        EncodesKeep(lib, st.core, before);
        SoundReach(lib, st, plan, before);
        SourcesReach(lib, st, plan, before);
        TouchAllKeeps(e, some);
        EncodeKeepsNoneLinked(lib, e, plan.slots, a.path, a.inode);
        forall j | 0 <= j < |plan.slots| && Bound(st.core, k, plan.slots[j], a.path)
          ensures plan.slots[j].dest.value !in st.core.links {
          SameVerdict(lib, st.core, plan, e, k, some, plan.slots[j]);
        }
      }
    }
  }

  /** The exact condition on the whole state, for a disc none of whose titles is linked yet: the
      interleaving ends where a single run after all the encodes does, when that one does not
      raise, if and only if, from the first run on, no encode landed on the file of a linked
      title, on the one its record had named, or on one that a record named before. */
  lemma ConfluentIff(lib: Path, st: State, plan: Plan, acts: seq<Step>)
    requires CoreOk(lib, st.core) && Fileable(lib, plan) && NoneLinked(st.core, plan.slots)
    requires Fresh(lib, st, plan, acts) && !Sweep(Encodes(lib, st.core, acts), plan.slots).raised
    ensures Run(Exec(lib, st, plan, acts), plan) == Run(State(Encodes(lib, st.core, acts), st.filed), plan)
      <==> Settled(lib, st, plan, acts)
  {
    if Settled(lib, st, plan, acts) {
      FilingIsConfluent(lib, st, plan, acts);
    } else if !NoneBack(lib, st, plan, acts) {
      var s, p, r := BackDiverges(lib, st, plan, acts);
      RunRecords(lib, Exec(lib, st, plan, acts), plan, s, r);
      RunRecords(lib, State(Encodes(lib, st.core, acts), st.filed), plan, s, p);
    } else {
      if NamesSettled(lib, st, plan, acts) {
        SettledAlike(lib, st, plan, acts);
      }
      NamesDiffer(lib, st, plan, acts);
    }
  }

  // ---------- runs that show it ----------

  function Untouched(placed: map<nat, Placement>): Core { Core(map[], map[], {}, map[], placed) }

  lemma ExecSnoc(lib: Path, st: State, plan: Plan, acts: seq<Step>, a: Step)
    ensures Exec(lib, st, plan, acts + [a]) == Apply(lib, Exec(lib, st, plan, acts), plan, a)
    ensures Encodes(lib, st.core, acts + [a])
      == var e := Encodes(lib, st.core, acts); if a.Encoded? then Encode(lib, e, a.path, a.inode) else e
  {
    assert (acts + [a])[..|acts|] == acts;
  }

  /** A slot that files from its mirrored path, which is outside the library. */
  ghost predicate Ready(lib: Path, s: Slot) {
    && SlotOk(lib, s) && s.fileable && s.dest.Some? && s.guess.Some?
    && !(s.guess.value <= lib) && !Under(lib, s.guess.value)
  }

  lemma FirstFiling(lib: Path, c: Core, s: Slot, n: Inode)
    requires Ready(lib, s) && CoreOk(lib, c) && s.title !in c.encoded && !Exists(c, s.dest.value)
    requires s.guess.value in c.links && c.links[s.guess.value] == n
    ensures Judge(c, s) == Linked(s.guess.value, n)
    ensures Place(c, s).links == c.links[s.dest.value := n] && Place(c, s).dirs == c.dirs + Ancestors(s.dest.value)
    ensures s.title in Place(c, s).encoded && Place(c, s).encoded[s.title] == s.guess.value
    ensures s.title in Place(c, s).placed && Place(c, s).placed[s.title].path == s.dest.value
  {
  }

  /** Encoding a title, filing it, encoding it again and filing again leaves the library on the
      first encode and the title in conflict; the same two encodes and then one run leave it
      on the second. */
  lemma ReencodeBreaksConfluence(lib: Path, s: Slot, plan: Plan, n: Inode, m: Inode) returns (acts: seq<Step>)
    requires Ready(lib, s) && n != m && plan.slots == [s] && !plan.series
    ensures var st := State(Untouched(map[]), false);
      var k, e := Exec(lib, st, plan, acts), Encodes(lib, st.core, acts);
      && acts == [Encoded(s.guess.value, n)] + [FileRun] + [Encoded(s.guess.value, m)]
      && Judge(k.core, s).Conflict?
      && var late, once := Run(k, plan).core.links, Run(State(e, false), plan).core.links;
      && s.dest.value in late && late[s.dest.value] == n
      && s.dest.value in once && once[s.dest.value] == m
  {
    var g, d, st := s.guess.value, s.dest.value, State(Untouched(map[]), false);
    var a, b, c := [Encoded(g, n)], [Encoded(g, n)] + [FileRun], [Encoded(g, n)] + [FileRun] + [Encoded(g, m)];
    acts := c;
    ExecSnoc(lib, st, plan, [], Encoded(g, n));
    assert [] + a == a;
    ExecSnoc(lib, st, plan, a, FileRun);
    ExecSnoc(lib, st, plan, b, Encoded(g, m));
    var k1, e := Encode(lib, st.core, g, n), Encode(lib, Encode(lib, st.core, g, n), g, m);
    SoloRun(lib, State(k1, false), plan, s, n);
    SoloRun(lib, State(e, false), plan, s, m);
    var k2 := Run(State(k1, false), plan);
    AncestorsNearLibrary(lib, d, g);
    var k3 := k2.(core := Encode(lib, k2.core, g, m));
    assert k3.core.links == map[g := m, d := n];
    RunKeeps(k3, plan);
  }

  /** A title whose recorded file `q` is gone and whose mirror is there: filing it, encoding to `q`
      and filing again leaves the library on the mirror's file, where encoding to `q` first
      links the new one.  No file that anything was linked from was replaced. */
  lemma BringingBackBreaksConfluence(lib: Path, s: Slot, plan: Plan, q: Path, m: Inode, n: Inode)
    returns (acts: seq<Step>)
    requires Ready(lib, s) && n != m && plan.slots == [s] && !plan.series
    requires q != s.guess.value && !Under(lib, q) && !(q <= lib)
    ensures var st := State(Gone(s, q, m), false);
      var k, e := Exec(lib, st, plan, acts), Encodes(lib, st.core, acts);
      && acts == [FileRun] + [Encoded(q, n)]
      && var late, once := Run(k, plan).core.links, Run(State(e, false), plan).core.links;
      && s.dest.value in late && late[s.dest.value] == m
      && s.dest.value in once && once[s.dest.value] == n
  {
    var st, d := State(Gone(s, q, m), false), s.dest.value;
    acts := [FileRun] + [Encoded(q, n)];
    ExecSnoc(lib, st, plan, [], FileRun);
    assert [] + [FileRun] == [FileRun];
    ExecSnoc(lib, st, plan, [FileRun], Encoded(q, n));
    SoloPlaced(lib, st, plan, s, s.guess.value, m);
    var e := Encode(lib, st.core, q, n);
    SoloPlaced(lib, State(e, false), plan, s, q, n);
    var k := Exec(lib, st, plan, acts);
    AncestorsNearLibrary(lib, d, q);
    assert k.core.links[d] == m;
    RunKeeps(k, plan);
  }

  /** Only the mirror of `s` is there; its record names `q`. */
  function Gone(s: Slot, q: Path, m: Inode): Core
    requires s.guess.Some?
  {
    Core(map[s.guess.value := m], map[], {}, map[s.title := q], map[])
  }

  lemma SoloPlaced(lib: Path, st: State, plan: Plan, s: Slot, src: Path, n: Inode)
    requires Ready(lib, s) && plan.slots == [s] && !plan.series && st.core.placed == map[]
    requires Source(st.core, s) == Some(src) && src in st.core.links && st.core.links[src] == n
    requires !Exists(st.core, s.dest.value)
    ensures Run(st, plan).core.links == st.core.links[s.dest.value := n]
  {
    assert Judge(st.core, s) == Linked(src, n);
    assert [s][1..] == [];
    assert PlaceAll(st.core, [s]) == PlaceAll(Place(st.core, s), []);
    assert Sweep(st.core, [s]) == Sweep(Place(st.core, s), []);
  }

  lemma SoloRun(lib: Path, st: State, plan: Plan, s: Slot, n: Inode)
    requires Ready(lib, s) && plan.slots == [s] && !plan.series
    requires st.core == Untouched(map[]).(links := map[s.guess.value := n])
    ensures Run(st, plan).core == Place(st.core, s)
    ensures Place(st.core, s).links == map[s.guess.value := n, s.dest.value := n]
    ensures Place(st.core, s).encoded == map[s.title := s.guess.value]
    ensures Place(st.core, s).dirs == Ancestors(s.dest.value) && Place(st.core, s).notes.Keys == {Sidecar(s.dest.value)}
  {
    FirstFiling(lib, st.core, s, n);
    assert [s][1..] == [];
    assert PlaceAll(st.core, [s]) == PlaceAll(Place(st.core, s), []);
    assert Sweep(st.core, [s]) == Sweep(Place(st.core, s), []);
  }

  /** The rows left of a disc: a placement of some other title `x` still holds the path of `s`. */
  ghost predicate Stale(lib: Path, s: Slot, t: Slot, x: nat, plan: Plan) {
    && Ready(lib, s) && Ready(lib, t) && Apart(s, t) && s.guess != t.guess && x != s.title && x != t.title
    && plan.slots == [s, t] && !plan.series
  }

  lemma RaisesFirst(lib: Path, st: State, s: Slot, t: Slot, x: nat, plan: Plan, n: Inode)
    requires Stale(lib, s, t, x, plan) && CoreOk(lib, st.core) && s.title !in st.core.encoded
    requires x in st.core.placed && st.core.placed[x].path == s.dest.value && !Exists(st.core, s.dest.value)
    requires s.guess.value in st.core.links && st.core.links[s.guess.value] == n
    ensures Sweep(st.core, plan.slots).raised
    ensures Run(st, plan).core.links == st.core.links[s.dest.value := n] && Run(st, plan).core.placed == st.core.placed
  {
    FirstFiling(lib, st.core, s, n);
  }

  /** With such a row the order shows: `t` filed before `s` was encoded stays filed, while a
      single run after both encodes raises at `s` and never comes to `t`. */
  lemma StaleClaimBreaksConfluence(lib: Path, s: Slot, t: Slot, x: nat, plan: Plan, n: Inode, m: Inode)
    returns (acts: seq<Step>)
    requires Stale(lib, s, t, x, plan)
    ensures var st := State(Untouched(map[x := Placement(s.dest.value, "")]), false);
      var k, e := Exec(lib, st, plan, acts), Encodes(lib, st.core, acts);
      && acts == [Encoded(t.guess.value, m)] + [FileRun] + [Encoded(s.guess.value, n)]
      && t.title in Run(k, plan).core.placed && t.title !in Run(State(e, false), plan).core.placed
      && t.dest.value in Run(k, plan).core.links && t.dest.value !in Run(State(e, false), plan).core.links
  {
    var g, h, st := s.guess.value, t.guess.value, State(Untouched(map[x := Placement(s.dest.value, "")]), false);
    var a, b := [Encoded(h, m)], [Encoded(h, m)] + [FileRun];
    acts := b + [Encoded(g, n)];
    ExecSnoc(lib, st, plan, [], Encoded(h, m));
    assert [] + a == a;
    ExecSnoc(lib, st, plan, a, FileRun);
    ExecSnoc(lib, st, plan, b, Encoded(g, n));
    var k1 := Encode(lib, st.core, h, m);
    assert k1 == st.core.(links := map[h := m]);
    var k2 := SecondOnly(lib, State(k1, false), s, t, x, plan, m);
    RaisesAfterwards(lib, k2, s, t, x, plan, n);
    RaisesAtOnce(lib, k1, s, t, x, plan, n, m);
  }

  lemma RaisesAfterwards(lib: Path, k: State, s: Slot, t: Slot, x: nat, plan: Plan, n: Inode)
    requires Stale(lib, s, t, x, plan) && k.core.encoded == map[t.title := t.guess.value]
    requires k.core.dirs == Ancestors(t.dest.value) && k.core.notes.Keys == {Sidecar(t.dest.value)}
    requires k.core.links.Keys == {t.guess.value, t.dest.value}
    requires t.title in k.core.placed && x in k.core.placed && k.core.placed[x].path == s.dest.value
    ensures var after := Run(k.(core := Encode(lib, k.core, s.guess.value, n)), plan).core;
      t.title in after.placed && t.dest.value in after.links
  {
    AncestorsNearLibrary(lib, t.dest.value, s.guess.value);
    SidecarApart(t.dest.value, s.dest.value);
    var next := Encode(lib, k.core, s.guess.value, n);
    assert next.links == k.core.links[s.guess.value := n];
    assert !Exists(next, s.dest.value);
    RaisesFirst(lib, k.(core := next), s, t, x, plan, n);
  }

  lemma RaisesAtOnce(lib: Path, c: Core, s: Slot, t: Slot, x: nat, plan: Plan, n: Inode, m: Inode)
    requires Stale(lib, s, t, x, plan)
    requires c == Untouched(map[x := Placement(s.dest.value, "")]).(links := map[t.guess.value := m])
    ensures var after := Run(State(Encode(lib, c, s.guess.value, n), false), plan).core;
      t.title !in after.placed && t.dest.value !in after.links
  {
    var next := Encode(lib, c, s.guess.value, n);
    assert next.links == map[t.guess.value := m, s.guess.value := n];
    RaisesFirst(lib, State(next, false), s, t, x, plan, n);
  }

  /** While `s` waits for its encode, the run files `t`. */
  lemma SecondOnly(lib: Path, st: State, s: Slot, t: Slot, x: nat, plan: Plan, m: Inode) returns (after: State)
    requires Stale(lib, s, t, x, plan)
    requires st.core == Untouched(map[x := Placement(s.dest.value, "")]).(links := map[t.guess.value := m])
    ensures after == Run(st, plan) && after.core == Place(st.core, t)
    ensures after.core.links == map[t.guess.value := m, t.dest.value := m]
    ensures after.core.encoded == map[t.title := t.guess.value] && after.core.dirs == Ancestors(t.dest.value)
    ensures after.core.notes.Keys == {Sidecar(t.dest.value)}
    ensures after.core.placed == st.core.placed[t.title := Placement(t.dest.value, t.nfo)]
  {
    after := Run(st, plan);
    FirstFiling(lib, st.core, t, m);
    assert Judge(st.core, s).Waiting? && Place(st.core, s) == st.core;
    assert plan.slots[1..] == [t] && [t][1..] == [];
    assert Sweep(st.core, plan.slots) == Sweep(st.core, [t]);
    assert !Claimed(st.core, t);
    assert Sweep(st.core, [t]) == Sweep(Place(st.core, t), []);
    assert PlaceAll(st.core, plan.slots) == PlaceAll(st.core, [t]) == PlaceAll(Place(st.core, t), []);
  }
}
