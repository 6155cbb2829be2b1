/** Filing confirmed discs into the library as hardlinks, one title at a time.

    A path is its components; a regular media file is a name for an inode; a sidecar is a
    name for a text.  Titles carry ids that are unique over all discs. */
module Filing {
  import opened Text

  type Path = seq<string>
  type Inode = nat

  datatype Placement = Placement(path: Path, nfo: string)

  /** The filesystem and the catalog rows filing reads and writes. */
  datatype Core = Core(
    links: map<Path, Inode>, notes: map<Path, string>, dirs: set<Path>,
    encoded: map<nat, Path>, placed: map<nat, Placement>)

  /** What a confirmation says about one title: whether its role produces a file, where that
      file belongs (nothing when the destination is refused), its sidecar text, and where
      the daemon's mirror of the rip would put the encoded file. */
  datatype Slot = Slot(title: nat, fileable: bool, dest: Option<Path>, nfo: string, guess: Option<Path>)

  datatype Verdict = NotFiled | Waiting | Refused(src: Path) | Conflict(src: Path) | Linked(src: Path, inode: Inode)

  predicate Under(root: Path, p: Path) { root < p }

  predicate IsMkv(p: Path) {
    p != [] && |p[|p| - 1]| >= 4 && p[|p| - 1][|p[|p| - 1]| - 4..] == ".mkv"
  }

  /** The same, in capitals or not: what a sidecar's name is derived from. */
  predicate IsMedia(p: Path) {
    && p != [] && |p[|p| - 1]| >= 4
    && var a := p[|p| - 1]; var n := |a|;
    a[n - 4] == '.' && a[n - 3] in "mM" && a[n - 2] in "kK" && a[n - 1] in "vV"
  }

  function Sidecar(p: Path): Path {
    if IsMedia(p) then p[..|p| - 1] + [p[|p| - 1][..|p[|p| - 1]| - 4] + ".nfo"] else p
  }

  function Ancestors(p: Path): set<Path> {
    set k | 0 < k < |p| :: p[..k]
  }

  lemma Restem(a: string)
    requires |a| >= 4 && a[|a| - 4..] == ".mkv"
    ensures var n := |a| - 4; a == a[..n] + ".mkv" && (a[..n] + ".nfo")[..n] == a[..n]
  {
  }

  lemma MkvIsMedia(p: Path)
    ensures IsMkv(p) ==> IsMedia(p)
  {
    if IsMkv(p) {
      var a := p[|p| - 1];
      var ext := a[|a| - 4..];
      assert a[|a| - 4] == ext[0] && a[|a| - 3] == ext[1] && a[|a| - 2] == ext[2] && a[|a| - 1] == ext[3];
    }
  }

  lemma SidecarShape(p: Path)
    requires IsMedia(p)
    ensures !IsMedia(Sidecar(p)) && |Sidecar(p)| == |p| && Sidecar(p)[..|p| - 1] == p[..|p| - 1]
    ensures var a := p[|p| - 1]; Sidecar(p)[|p| - 1] == a[..|a| - 4] + ".nfo"
  {
    var a := p[|p| - 1];
    var stem := a[..|a| - 4];
    assert (stem + ".nfo")[|stem| + 3] == 'o';
  }

  lemma SidecarApart(p: Path, q: Path)
    requires IsMkv(p)
    ensures !IsMkv(Sidecar(p)) && |Sidecar(p)| == |p| && Sidecar(p)[..|p| - 1] == p[..|p| - 1]
    ensures IsMkv(q) && Sidecar(p) == Sidecar(q) ==> p == q
  {
    MkvIsMedia(p);
    MkvIsMedia(Sidecar(p));
    SidecarShape(p);
    if IsMkv(q) && Sidecar(p) == Sidecar(q) {
      SidecarInjective(p, q);
    }
  }

  lemma SidecarInjective(p: Path, q: Path)
    requires IsMkv(p) && IsMkv(q) && Sidecar(p) == Sidecar(q)
    ensures p == q
  {
    var a, b := p[|p| - 1], q[|q| - 1];
    assert |p| == |q| && p[..|p| - 1] == q[..|q| - 1] && a[..|a| - 4] + ".nfo" == b[..|b| - 4] + ".nfo" by {
      MkvIsMedia(p);
      MkvIsMedia(q);
      SidecarShape(p);
      SidecarShape(q);
    }
    SameStem(a, b);
    SameEnds(p, q);
  }

  lemma SameEnds(p: Path, q: Path)
    requires p != [] && |p| == |q| && p[..|p| - 1] == q[..|q| - 1] && p[|p| - 1] == q[|q| - 1]
    ensures p == q
  {
    assert p == p[..|p| - 1] + [p[|p| - 1]] && q == q[..|q| - 1] + [q[|q| - 1]];
  }

  lemma SameStem(a: string, b: string)
    requires |a| >= 4 && a[|a| - 4..] == ".mkv" && |b| >= 4 && b[|b| - 4..] == ".mkv"
    requires a[..|a| - 4] + ".nfo" == b[..|b| - 4] + ".nfo"
    ensures a == b
  {
    Restem(a);
    Restem(b);
    assert |a| == |b|;
  }

  predicate Exists(c: Core, p: Path) { p in c.links || p in c.notes || p in c.dirs }

  /** The encoded file a title became: the recorded one if it is there, else the mirrored one. */
  function Source(c: Core, s: Slot): Option<Path> {
    if s.title in c.encoded && c.encoded[s.title] in c.links then Some(c.encoded[s.title])
    else if s.guess.Some? && s.guess.value in c.links then s.guess
    else None
  }

  function Judge(c: Core, s: Slot): Verdict {
    var src := Source(c, s);
    if !s.fileable then NotFiled
    else if src.None? || src.value !in c.links then Waiting
    else if s.dest.None? then Refused(src.value)
    else if Exists(c, s.dest.value) && !(s.dest.value in c.links && c.links[s.dest.value] == c.links[src.value])
    then Conflict(src.value)
    else Linked(src.value, c.links[src.value])
  }

  predicate Files(s: Slot, v: Verdict) { v.Linked? && s.dest.Some? }

  function LinksBy(links: map<Path, Inode>, s: Slot, v: Verdict): map<Path, Inode> {
    if Files(s, v) && s.dest.value !in links then links[s.dest.value := v.inode] else links
  }

  function NotesBy(notes: map<Path, string>, s: Slot, v: Verdict): map<Path, string> {
    if Files(s, v) then notes[Sidecar(s.dest.value) := s.nfo] else notes
  }

  function DirsBy(dirs: set<Path>, s: Slot, v: Verdict): set<Path> {
    if (v.Conflict? || v.Linked?) && s.dest.Some? then dirs + Ancestors(s.dest.value) else dirs
  }

  function EncodedBy(encoded: map<nat, Path>, s: Slot, v: Verdict): map<nat, Path> {
    if v.NotFiled? || v.Waiting? then encoded else encoded[s.title := v.src]
  }

  function PlacedBy(placed: map<nat, Placement>, s: Slot, v: Verdict): map<nat, Placement> {
    if Files(s, v) then placed[s.title := Placement(s.dest.value, s.nfo)] else placed
  }

  /** What a verdict does: the source found is written back, the directories are made, and
      only a free or already identical destination gets its link, sidecar and placement. */
  function Enact(c: Core, s: Slot, v: Verdict): Core {
    Core(LinksBy(c.links, s, v), NotesBy(c.notes, s, v), DirsBy(c.dirs, s, v),
         EncodedBy(c.encoded, s, v), PlacedBy(c.placed, s, v))
  }

  function Place(c: Core, s: Slot): Core { Enact(c, s, Judge(c, s)) }

  function PlaceAll(c: Core, plan: seq<Slot>): Core
    decreases |plan|
  {
    if plan == [] then c else PlaceAll(Place(c, plan[0]), plan[1..])
  }

  // ---------- titles with different destinations do not meet ----------

  /** Every destination is an .mkv under the library; encoded files are elsewhere. */
  ghost predicate SlotOk(lib: Path, s: Slot) {
    && (s.dest.Some? ==> IsMkv(s.dest.value) && Under(lib, s.dest.value))
    && (s.guess.Some? ==> !Under(lib, s.guess.value))
  }

  /** The encoded files on record are outside the library.  They may be gone. */
  ghost predicate CoreOk(lib: Path, c: Core) {
    forall t :: t in c.encoded ==> !Under(lib, c.encoded[t])
  }

  ghost predicate Apart(s: Slot, t: Slot) {
    && s.title != t.title
    && (s.dest.Some? && t.dest.Some? ==>
          && s.dest.value != t.dest.value
          && s.dest.value !in Ancestors(t.dest.value) && t.dest.value !in Ancestors(s.dest.value))
  }

  ghost predicate PlanOk(lib: Path, plan: seq<Slot>) {
    && (forall i :: 0 <= i < |plan| ==> SlotOk(lib, plan[i]))
    && (forall i, j :: 0 <= i < j < |plan| ==> Apart(plan[i], plan[j]) && Apart(plan[j], plan[i]))
  }

  lemma PlaceKeepsOk(lib: Path, c: Core, s: Slot)
    requires CoreOk(lib, c) && SlotOk(lib, s)
    ensures CoreOk(lib, Place(c, s))
  {
  }

  lemma SourceSteady(lib: Path, c: Core, s: Slot, t: Slot)
    requires CoreOk(lib, c) && SlotOk(lib, s) && SlotOk(lib, t) && (s == t || Apart(t, s))
    ensures Source(Place(c, s), t) == Source(c, t)
    ensures Source(c, t).Some? ==>
      Source(c, t).value in c.links && Source(c, t).value in Place(c, s).links
      && Place(c, s).links[Source(c, t).value] == c.links[Source(c, t).value]
  {
  }

  /** Another title's destination looks the same after placing `s`. */
  lemma DestSteady(c: Core, s: Slot, v: Verdict, d: Path)
    requires s.dest.Some? ==> IsMkv(s.dest.value) && IsMkv(d) && s.dest.value != d && d !in Ancestors(s.dest.value)
    ensures var e := Enact(c, s, v);
      && (d in e.links <==> d in c.links) && (d in c.links ==> e.links[d] == c.links[d])
      && (Exists(e, d) <==> Exists(c, d))
  {
    if s.dest.Some? {
      SidecarApart(s.dest.value, d);
    }
  }

  lemma OwnDestSteady(c: Core, s: Slot, v: Verdict)
    requires s.dest.Some? && IsMkv(s.dest.value)
    ensures var e, d := Enact(c, s, v), s.dest.value;
      && (v.Linked? ==> d in e.links && e.links[d] == if d in c.links then c.links[d] else v.inode)
      && (!v.Linked? ==> e.links == c.links && (Exists(e, d) <==> Exists(c, d)))
  {
    SidecarApart(s.dest.value, s.dest.value);
  }

  /** Placing one title changes no other title's verdict, nor its own. */
  lemma JudgeSteady(lib: Path, c: Core, s: Slot, t: Slot)
    requires CoreOk(lib, c) && SlotOk(lib, s) && SlotOk(lib, t) && (s == t || Apart(t, s))
    ensures Judge(Place(c, s), t) == Judge(c, t)
  {
    SourceSteady(lib, c, s, t);
    if t.dest.Some? {
      if s == t {
        OwnDestSteady(c, s, Judge(c, s));
      } else {
        DestSteady(c, s, Judge(c, s), t.dest.value);
      }
    }
  }

  lemma EnactCommutes(c: Core, s: Slot, v: Verdict, t: Slot, w: Verdict)
    requires Apart(s, t)
    requires s.dest.Some? && t.dest.Some? ==> Sidecar(s.dest.value) != Sidecar(t.dest.value)
    ensures Enact(Enact(c, s, v), t, w) == Enact(Enact(c, t, w), s, v)
  {
    MapsCommute(c, s, v, t, w);
    assert DirsBy(DirsBy(c.dirs, s, v), t, w) == DirsBy(DirsBy(c.dirs, t, w), s, v);
  }

  lemma UpdatesCommute<K, V>(m: map<K, V>, a: K, x: V, b: K, y: V)
    requires a != b
    ensures m[a := x][b := y] == m[b := y][a := x]
  {
  }

  lemma MapsCommute(c: Core, s: Slot, v: Verdict, t: Slot, w: Verdict)
    requires Apart(s, t)
    requires s.dest.Some? && t.dest.Some? ==> Sidecar(s.dest.value) != Sidecar(t.dest.value)
    ensures LinksBy(LinksBy(c.links, s, v), t, w) == LinksBy(LinksBy(c.links, t, w), s, v)
    ensures NotesBy(NotesBy(c.notes, s, v), t, w) == NotesBy(NotesBy(c.notes, t, w), s, v)
    ensures EncodedBy(EncodedBy(c.encoded, s, v), t, w) == EncodedBy(EncodedBy(c.encoded, t, w), s, v)
    ensures PlacedBy(PlacedBy(c.placed, s, v), t, w) == PlacedBy(PlacedBy(c.placed, t, w), s, v)
  {
    if Files(s, v) && Files(t, w) {
      var d, e := s.dest.value, t.dest.value;
      UpdatesCommute(c.links, d, v.inode, e, w.inode);
      UpdatesCommute(c.notes, Sidecar(d), s.nfo, Sidecar(e), t.nfo);
      UpdatesCommute(c.placed, s.title, Placement(d, s.nfo), t.title, Placement(e, t.nfo));
    }
    if !v.NotFiled? && !v.Waiting? && !w.NotFiled? && !w.Waiting? {
      UpdatesCommute(c.encoded, s.title, v.src, t.title, w.src);
    }
  }

  lemma PlaceCommutes(lib: Path, c: Core, s: Slot, t: Slot)
    requires CoreOk(lib, c) && SlotOk(lib, s) && SlotOk(lib, t) && Apart(s, t) && Apart(t, s)
    ensures Place(Place(c, s), t) == Place(Place(c, t), s)
  {
    JudgeSteady(lib, c, s, t);
    JudgeSteady(lib, c, t, s);
    if s.dest.Some? && t.dest.Some? {
      SidecarApart(s.dest.value, t.dest.value);
    }
    EnactCommutes(c, s, Judge(c, s), t, Judge(c, t));
  }

  lemma PlaceTwice(lib: Path, c: Core, s: Slot)
    requires CoreOk(lib, c) && SlotOk(lib, s)
    ensures Place(Place(c, s), s) == Place(c, s)
  {
    JudgeSteady(lib, c, s, s);
    var v, once := Judge(c, s), Place(c, s);
    var twice := Enact(once, s, v);
    assert once.encoded == twice.encoded && once.dirs == twice.dirs;
    assert once.links == twice.links && once.notes == twice.notes && once.placed == twice.placed;
  }

  lemma SidecarUnder(lib: Path, p: Path)
    requires IsMkv(p) && Under(lib, p)
    ensures Under(lib, Sidecar(p))
  {
    SidecarApart(p, p);
    assert p[..|lib|] == lib && p[..|p| - 1][..|lib|] == lib;
    assert Sidecar(p)[..|lib|] == Sidecar(p)[..|p| - 1][..|lib|];
  }

  /** A directory above a file of the library is in the library or above it. */
  lemma AncestorsNearLibrary(lib: Path, d: Path, p: Path)
    requires Under(lib, d)
    ensures p in Ancestors(d) ==> Under(lib, p) || p <= lib
  {
    if p in Ancestors(d) {
      var k :| 0 < k < |d| && p == d[..k];
      assert lib == d[..|lib|];
      if k <= |lib| {
        assert p == lib[..k];
      } else {
        assert lib == p[..|lib|];
      }
    }
  }

  // ---------- filing in stages ----------

  /** A confirmed disc.  `show` is where a series keeps its tvshow.nfo. */
  datatype Plan = Plan(slots: seq<Slot>, series: bool, show: Path, showText: string)

  datatype State = State(core: Core, filed: bool)

  ghost predicate Fileable(lib: Path, plan: Plan) {
    && PlanOk(lib, plan.slots) && Under(lib, plan.show) && !IsMkv(plan.show)
    && forall i :: 0 <= i < |plan.slots| && plan.slots[i].dest.Some? ==>
         Sidecar(plan.slots[i].dest.value) != plan.show && plan.show !in Ancestors(plan.slots[i].dest.value)
  }

  predicate AnyLinked(c: Core, slots: seq<Slot>) {
    exists i :: 0 <= i < |slots| && Judge(c, slots[i]).Linked?
  }

  /** Every title that was going to be filed is filed, and there was one. */
  predicate AllFiled(c: Core, slots: seq<Slot>) {
    && AnyLinked(c, slots)
    && forall i :: 0 <= i < |slots| ==> Judge(c, slots[i]).Linked? || Judge(c, slots[i]).NotFiled?
  }

  function AddShow(c: Core, plan: Plan): Core {
    if Exists(c, plan.show) then c else c.(notes := c.notes[plan.show := plan.showText])
  }

  /** The verdicts of one run, each taken when its title's turn comes. */
  function Verdicts(c: Core, slots: seq<Slot>): (vs: seq<Verdict>)
    ensures |vs| == |slots|
    decreases |slots|
  {
    if slots == [] then [] else [Judge(c, slots[0])] + Verdicts(Place(c, slots[0]), slots[1..])
  }

  predicate SomeLinked(vs: seq<Verdict>) {
    exists i :: 0 <= i < |vs| && vs[i].Linked?
  }

  predicate CompleteRun(vs: seq<Verdict>) {
    SomeLinked(vs) && forall i :: 0 <= i < |vs| ==> vs[i].Linked? || vs[i].NotFiled?
  }

  /** Another title's placement holds the path `s` is to go to. */
  predicate Claimed(c: Core, s: Slot) {
    s.dest.Some? && exists t :: t in c.placed && t != s.title && c.placed[t].path == s.dest.value
  }

  /** Placement paths are unique, and saving a second row for one raises out of the whole run. */
  predicate Raises(c: Core, s: Slot) { Judge(c, s).Linked? && Claimed(c, s) }

  /** By then the link and the sidecar are there; only the placement is not. */
  function Halted(c: Core, s: Slot): Core { Place(c, s).(placed := c.placed) }

  datatype Swept = Swept(core: Core, raised: bool)

  function Sweep(c: Core, slots: seq<Slot>): Swept
    decreases |slots|
  {
    if slots == [] then Swept(c, false)
    else if Raises(c, slots[0]) then Swept(Halted(c, slots[0]), true)
    else Sweep(Place(c, slots[0]), slots[1..])
  }

  /** A run that nothing stops. */
  function Whole(st: State, plan: Plan): State {
    var vs, c := Verdicts(st.core, plan.slots), PlaceAll(st.core, plan.slots);
    State(if plan.series && SomeLinked(vs) then AddShow(c, plan) else c, st.filed || CompleteRun(vs))
  }

  function Run(st: State, plan: Plan): State {
    var swept := Sweep(st.core, plan.slots);
    if swept.raised then State(swept.core, st.filed) else Whole(st, plan)
  }

  lemma {:induction false} SweepUnraised(c: Core, slots: seq<Slot>)
    requires !Sweep(c, slots).raised
    ensures Sweep(c, slots).core == PlaceAll(c, slots)
    decreases |slots|
  {
    if slots != [] {
      SweepUnraised(Place(c, slots[0]), slots[1..]);
    }
  }

  /** Title `i` will be linked, and when its turn comes another title's placement holds its
      path: one that no title before it gives up by being filed itself. */
  ghost predicate RaisesAt(c: Core, slots: seq<Slot>, i: nat)
    requires i < |slots|
  {
    && Judge(c, slots[i]).Linked? && slots[i].dest.Some?
    && exists t :: t in c.placed && t != slots[i].title && c.placed[t].path == slots[i].dest.value
         && forall j :: 0 <= j < i && slots[j].title == t ==> !Judge(c, slots[j]).Linked?
  }

  lemma RaisesLater(lib: Path, c: Core, slots: seq<Slot>, i: nat)
    requires CoreOk(lib, c) && PlanOk(lib, slots) && i + 1 < |slots|
    ensures RaisesAt(Place(c, slots[0]), slots[1..], i) <==> RaisesAt(c, slots, i + 1)
  {
    var h, rest, d := slots[0], slots[1..], Place(c, slots[0]);
    var s := rest[i];
    assert s == slots[i + 1];
    forall j | 0 <= j < |rest| ensures Judge(d, rest[j]) == Judge(c, slots[j + 1]) {
      assert Apart(slots[j + 1], h);
      JudgeSteady(lib, c, h, slots[j + 1]);
    }
    if RaisesAt(d, rest, i) {
      var t :| t in d.placed && t != s.title && d.placed[t].path == s.dest.value
        && forall j :: 0 <= j < i && rest[j].title == t ==> !Judge(d, rest[j]).Linked?;
      HolderBefore(c, h, s, t);
      forall j | 0 <= j < i + 1 && slots[j].title == t ensures !Judge(c, slots[j]).Linked? {
        assert j > 0 ==> rest[j - 1] == slots[j];
      }
    }
    if RaisesAt(c, slots, i + 1) {
      var t :| t in c.placed && t != s.title && c.placed[t].path == s.dest.value
        && forall j :: 0 <= j < i + 1 && slots[j].title == t ==> !Judge(c, slots[j]).Linked?;
      assert h.title == t ==> !Judge(c, h).Linked?;
      assert t in d.placed && d.placed[t] == c.placed[t];
      forall j | 0 <= j < i && rest[j].title == t ensures !Judge(d, rest[j]).Linked? {
        assert slots[j + 1] == rest[j];
      }
    }
  }

  /** Whoever holds a later title's path after `h` was filed held it before, and is not `h`. */
  lemma HolderBefore(c: Core, h: Slot, s: Slot, t: nat)
    requires Apart(h, s) && s.dest.Some? && t in Place(c, h).placed && Place(c, h).placed[t].path == s.dest.value
    ensures t in c.placed && c.placed[t].path == s.dest.value && (t == h.title ==> !Judge(c, h).Linked?)
  {
  }

  /** A run raises if and only if a title that would be linked finds its path held by another
      title's placement that is not given up before. */
  lemma {:induction false} RaisesIff(lib: Path, c: Core, slots: seq<Slot>)
    requires CoreOk(lib, c) && PlanOk(lib, slots)
    ensures Sweep(c, slots).raised <==> exists i :: 0 <= i < |slots| && RaisesAt(c, slots, i)
    decreases |slots|
  {
    if slots != [] {
      var h, rest := slots[0], slots[1..];
      assert Raises(c, h) <==> RaisesAt(c, slots, 0);
      PlaceKeepsOk(lib, c, h);
      RaisesIff(lib, Place(c, h), rest);
      if !Raises(c, h) {
        if i :| 0 <= i < |rest| && RaisesAt(Place(c, h), rest, i) {
          RaisesLater(lib, c, slots, i);
        }
        if i :| 0 <= i < |slots| && RaisesAt(c, slots, i) {
          RaisesLater(lib, c, slots, i - 1);
        }
      }
    }
  }

  /** With distinct destinations the order of the titles does not enter their verdicts. */
  lemma {:induction false} VerdictsAreJudgements(lib: Path, c: Core, slots: seq<Slot>)
    requires CoreOk(lib, c) && PlanOk(lib, slots)
    ensures |Verdicts(c, slots)| == |slots|
    ensures forall i :: 0 <= i < |slots| ==> Verdicts(c, slots)[i] == Judge(c, slots[i])
    decreases |slots|
  {
    if slots != [] {
      PlaceKeepsOk(lib, c, slots[0]);
      VerdictsAreJudgements(lib, Place(c, slots[0]), slots[1..]);
      forall i | 0 < i < |slots| ensures Verdicts(c, slots)[i] == Judge(c, slots[i]) {
        JudgeSteady(lib, c, slots[0], slots[i]);
        assert slots[1..][i - 1] == slots[i];
      }
    }
  }

  lemma VerdictsAgree(lib: Path, c: Core, slots: seq<Slot>)
    requires CoreOk(lib, c) && PlanOk(lib, slots)
    ensures SomeLinked(Verdicts(c, slots)) == AnyLinked(c, slots)
    ensures CompleteRun(Verdicts(c, slots)) == AllFiled(c, slots)
  {
    VerdictsAreJudgements(lib, c, slots);
    if AnyLinked(c, slots) {
      var i :| 0 <= i < |slots| && Judge(c, slots[i]).Linked?;
      assert Verdicts(c, slots)[i].Linked?;
    }
    if SomeLinked(Verdicts(c, slots)) {
      var i :| 0 <= i < |slots| && Verdicts(c, slots)[i].Linked?;
      assert Judge(c, slots[i]).Linked?;
    }
  }

  lemma ShowJudge(lib: Path, c: Core, plan: Plan, s: Slot)
    requires Fileable(lib, plan) && s in plan.slots
    ensures Judge(AddShow(c, plan), s) == Judge(c, s)
    ensures AddShow(Place(c, s), plan) == Place(AddShow(c, plan), s)
  {
    if s.dest.Some? {
      SidecarApart(s.dest.value, s.dest.value);
      if Files(s, Judge(c, s)) {
        UpdatesCommute(c.notes, Sidecar(s.dest.value), s.nfo, plan.show, plan.showText);
      }
    }
  }

  // ---------- what a run leaves behind ----------

  /** The encoded file of `s` is `src`: the one on record, or, that one being gone or unknown, the
      one in the mirrored tree. */
  ghost predicate IsSource(c: Core, s: Slot, src: Path) {
    && src in c.links
    && if s.title in c.encoded && c.encoded[s.title] in c.links then src == c.encoded[s.title] else s.guess == Some(src)
  }

  /** `s` has a role that is filed, somewhere to go, and an encoded file `src`; and where it goes
      there is nothing, or that very file. */
  ghost predicate Ready(c: Core, s: Slot, src: Path) {
    && s.fileable && s.dest.Some? && IsSource(c, s, src)
    && (s.dest.value in c.links ==> c.links[s.dest.value] == c.links[src])
    && (s.dest.value !in c.links ==> s.dest.value !in c.notes && s.dest.value !in c.dirs)
  }

  lemma LinkedIff(c: Core, s: Slot)
    ensures Judge(c, s).Linked? <==> exists src :: Ready(c, s, src)
    ensures Judge(c, s).Linked? ==> Ready(c, s, Judge(c, s).src) && Judge(c, s).inode == c.links[Judge(c, s).src]
  {
    if Judge(c, s).Linked? {
      assert Ready(c, s, Judge(c, s).src);
    }
  }

  /** What `d` shows of a title that was ready in `c`: the file under its name in the library, the
      sidecar beside it, the directories above it, and the rows that say so. */
  ghost predicate FiledAs(c: Core, d: Core, s: Slot, src: Path)
    requires s.dest.Some? && src in c.links
  {
    var p := s.dest.value;
    && p in d.links && d.links[p] == c.links[src]
    && Sidecar(p) in d.notes && d.notes[Sidecar(p)] == s.nfo && Ancestors(p) <= d.dirs
    && s.title in d.placed && d.placed[s.title] == Placement(p, s.nfo)
    && s.title in d.encoded && d.encoded[s.title] == src
  }

  ghost predicate AllReadyFiled(c: Core, d: Core, slots: seq<Slot>) {
    forall i, src :: 0 <= i < |slots| && Ready(c, slots[i], src) ==> FiledAs(c, d, slots[i], src)
  }

  ghost predicate SameAt<K(!new), V>(m: map<K, V>, n: map<K, V>, k: K) {
    (k in m <==> k in n) && (k in m ==> m[k] == n[k])
  }

  /** `s` has a role that is filed and an encoded file. */
  ghost predicate Sourced(c: Core, s: Slot) { s.fileable && exists src :: IsSource(c, s, src) }

  ghost predicate GetsFiled(c: Core, s: Slot) { exists src :: Ready(c, s, src) }

  /** Filing `s` makes nothing at `p`: neither the file, nor its sidecar, nor a directory. */
  ghost predicate Elsewhere(c: Core, s: Slot, p: Path) {
    s.dest.Some? ==>
      && (GetsFiled(c, s) ==> p != s.dest.value && p != Sidecar(s.dest.value))
      && (Sourced(c, s) ==> p !in Ancestors(s.dest.value))
  }

  /** Each verdict in terms of the roles, files and records there are. */
  lemma VerdictIff(c: Core, s: Slot)
    ensures Judge(c, s).NotFiled? <==> !s.fileable
    ensures Judge(c, s).Waiting? <==> s.fileable && !Sourced(c, s)
    ensures Judge(c, s).Refused? <==> Sourced(c, s) && s.dest.None?
    ensures Judge(c, s).Conflict? <==> Sourced(c, s) && s.dest.Some? && !GetsFiled(c, s)
    ensures Sourced(c, s) <==> !Judge(c, s).NotFiled? && !Judge(c, s).Waiting?
    ensures Sourced(c, s) ==> IsSource(c, s, Judge(c, s).src)
    ensures GetsFiled(c, s) <==> Judge(c, s).Linked?
  {
    LinkedIff(c, s);
    if !Judge(c, s).NotFiled? && !Judge(c, s).Waiting? {
      assert IsSource(c, s, Judge(c, s).src);
    }
  }

  lemma ReadyIsSource(lib: Path, c: Core, h: Slot, s: Slot, src: Path)
    requires CoreOk(lib, c) && SlotOk(lib, h) && SlotOk(lib, s) && Apart(s, h)
    ensures Ready(Place(c, h), s, src) <==> Ready(c, s, src)
    ensures Ready(c, s, src) ==> src in Place(c, h).links && Place(c, h).links[src] == c.links[src]
    ensures Sourced(Place(c, h), s) <==> Sourced(c, s)
  {
    JudgeSteady(lib, c, h, s);
    SourceSteady(lib, c, h, s);
    VerdictIff(c, s);
    VerdictIff(Place(c, h), s);
    LinkedIff(c, s);
    LinkedIff(Place(c, h), s);
  }

  lemma PlaceFiles(c: Core, s: Slot, src: Path)
    requires Ready(c, s, src)
    ensures FiledAs(c, Place(c, s), s, src)
  {
    LinkedIff(c, s);
  }

  lemma FiledStays(lib: Path, c: Core, d: Core, h: Slot, s: Slot, src: Path)
    requires SlotOk(lib, h) && SlotOk(lib, s) && Apart(s, h) && s.dest.Some? && src in c.links && FiledAs(c, d, s, src)
    ensures FiledAs(c, Place(d, h), s, src)
  {
    if h.dest.Some? {
      SidecarApart(s.dest.value, h.dest.value);
    }
  }

  lemma {:induction false} FiledStaysAll(lib: Path, c: Core, d: Core, slots: seq<Slot>, s: Slot, src: Path)
    requires PlanOk(lib, slots) && SlotOk(lib, s) && forall i :: 0 <= i < |slots| ==> Apart(s, slots[i])
    requires s.dest.Some? && src in c.links && FiledAs(c, d, s, src)
    ensures FiledAs(c, PlaceAll(d, slots), s, src)
    decreases |slots|
  {
    if slots != [] {
      FiledStays(lib, c, d, slots[0], s, src);
      FiledStaysAll(lib, c, Place(d, slots[0]), slots[1..], s, src);
    }
  }

  lemma {:induction false} ReadyIsFiled(lib: Path, c: Core, slots: seq<Slot>, i: nat, src: Path)
    requires CoreOk(lib, c) && PlanOk(lib, slots) && i < |slots| && Ready(c, slots[i], src)
    ensures FiledAs(c, PlaceAll(c, slots), slots[i], src)
    decreases |slots|
  {
    var h, rest := slots[0], slots[1..];
    if i == 0 {
      PlaceFiles(c, h, src);
      FiledStaysAll(lib, c, Place(c, h), rest, h, src);
    } else {
      PlaceKeepsOk(lib, c, h);
      ReadyIsSource(lib, c, h, slots[i], src);
      ReadyIsFiled(lib, Place(c, h), rest, i - 1, src);
    }
  }

  /** Placing `s`, or half placing it, makes nothing elsewhere. */
  lemma PlaceOnlyThere(c: Core, s: Slot, p: Path)
    requires Elsewhere(c, s, p)
    ensures forall d :: d == Place(c, s) || d == Halted(c, s) ==>
      SameAt(c.links, d.links, p) && SameAt(c.notes, d.notes, p) && (p in d.dirs <==> p in c.dirs)
  {
    VerdictIff(c, s);
  }

  lemma {:induction false} SweepOnlyThere(lib: Path, c: Core, slots: seq<Slot>, p: Path)
    requires CoreOk(lib, c) && PlanOk(lib, slots) && forall i :: 0 <= i < |slots| ==> Elsewhere(c, slots[i], p)
    ensures var d := Sweep(c, slots).core;
      SameAt(c.links, d.links, p) && SameAt(c.notes, d.notes, p) && (p in d.dirs <==> p in c.dirs)
    decreases |slots|
  {
    if slots != [] {
      var h, rest := slots[0], slots[1..];
      PlaceOnlyThere(c, h, p);
      if !Raises(c, h) {
        PlaceKeepsOk(lib, c, h);
        forall i | 0 <= i < |rest| ensures Elsewhere(Place(c, h), rest[i], p) {
          ElsewhereSteady(lib, c, h, slots[i + 1], p);
        }
        SweepOnlyThere(lib, Place(c, h), rest, p);
      }
    }
  }

  lemma ElsewhereSteady(lib: Path, c: Core, h: Slot, s: Slot, p: Path)
    requires CoreOk(lib, c) && SlotOk(lib, h) && SlotOk(lib, s) && Apart(s, h) && Elsewhere(c, s, p)
    ensures Elsewhere(Place(c, h), s, p)
  {
    JudgeSteady(lib, c, h, s);
    VerdictIff(c, s);
    VerdictIff(Place(c, h), s);
  }

  /** Title `t` keeps its placement unless it gets filed, and its record unless it has a source. */
  lemma {:induction false} SweepOnlyTheirRows(lib: Path, c: Core, slots: seq<Slot>, t: nat)
    requires CoreOk(lib, c) && PlanOk(lib, slots)
    ensures var d := Sweep(c, slots).core;
      && ((forall i :: 0 <= i < |slots| && slots[i].title == t ==> !GetsFiled(c, slots[i])) ==>
            SameAt(c.placed, d.placed, t))
      && ((forall i :: 0 <= i < |slots| && slots[i].title == t ==> !Sourced(c, slots[i])) ==>
            SameAt(c.encoded, d.encoded, t))
    decreases |slots|
  {
    if slots != [] {
      var h, rest := slots[0], slots[1..];
      VerdictIff(c, h);
      if !Raises(c, h) {
        var b := Place(c, h);
        PlaceKeepsOk(lib, c, h);
        forall i | 0 <= i < |rest|
          ensures GetsFiled(b, rest[i]) == GetsFiled(c, slots[i + 1]) && Sourced(b, rest[i]) == Sourced(c, slots[i + 1])
        {
          JudgeSteady(lib, c, h, slots[i + 1]);
          VerdictIff(c, slots[i + 1]);
          VerdictIff(b, rest[i]);
        }
        SweepOnlyTheirRows(lib, b, rest, t);
      }
    }
  }

  /** The source found for a title is on its record afterwards, filed or not. */
  lemma {:induction false} SourceIsRecorded(lib: Path, c: Core, slots: seq<Slot>, i: nat, src: Path)
    requires CoreOk(lib, c) && PlanOk(lib, slots) && i < |slots| && slots[i].fileable && IsSource(c, slots[i], src)
    ensures var d := PlaceAll(c, slots); slots[i].title in d.encoded && d.encoded[slots[i].title] == src
    decreases |slots|
  {
    var h, rest := slots[0], slots[1..];
    VerdictIff(c, slots[i]);
    PlaceKeepsOk(lib, c, h);
    if i == 0 {
      OthersStayRecorded(Place(c, h), rest, h.title);
    } else {
      assert Apart(slots[i], h);
      SourceSteady(lib, c, h, slots[i]);
      SourceIsRecorded(lib, Place(c, h), rest, i - 1, src);
    }
  }

  lemma {:induction false} OthersStayRecorded(c: Core, slots: seq<Slot>, t: nat)
    requires forall i :: 0 <= i < |slots| ==> slots[i].title != t
    ensures SameAt(c.encoded, PlaceAll(c, slots).encoded, t)
    decreases |slots|
  {
    if slots != [] {
      OthersStayRecorded(Place(c, slots[0]), slots[1..], t);
    }
  }

  /** What a run that does not raise has done: every title that was ready is filed, with its name,
      its sidecar, its directories and its rows; every title with a source has it on record; and no
      other file, note, directory, placement or record has changed, but for the series note. */
  lemma RunFiles(lib: Path, st: State, plan: Plan, p: Path, t: nat)
    requires CoreOk(lib, st.core) && Fileable(lib, plan) && !Sweep(st.core, plan.slots).raised
    ensures var c, d, slots := st.core, Run(st, plan).core, plan.slots;
      && AllReadyFiled(c, d, slots)
      && (forall i, src :: 0 <= i < |slots| && slots[i].fileable && IsSource(c, slots[i], src) ==>
            slots[i].title in d.encoded && d.encoded[slots[i].title] == src)
      && ((forall i :: 0 <= i < |slots| ==> Elsewhere(c, slots[i], p)) ==>
            && SameAt(c.links, d.links, p) && (p in d.dirs <==> p in c.dirs)
            && (p != plan.show ==> SameAt(c.notes, d.notes, p)))
      && ((forall i :: 0 <= i < |slots| && slots[i].title == t ==> !GetsFiled(c, slots[i])) ==>
            SameAt(c.placed, d.placed, t))
      && ((forall i :: 0 <= i < |slots| && slots[i].title == t ==> !Sourced(c, slots[i])) ==>
            SameAt(c.encoded, d.encoded, t))
  {
    var c, d, slots := st.core, Run(st, plan).core, plan.slots;
    SweepUnraised(c, slots);
    forall i, src | 0 <= i < |slots| && Ready(c, slots[i], src) ensures FiledAs(c, d, slots[i], src) {
      ReadyIsFiled(lib, c, slots, i, src);
    }
    forall i, src | 0 <= i < |slots| && slots[i].fileable && IsSource(c, slots[i], src)
      ensures slots[i].title in d.encoded && d.encoded[slots[i].title] == src
    {
      SourceIsRecorded(lib, c, slots, i, src);
    }
    if forall i :: 0 <= i < |slots| ==> Elsewhere(c, slots[i], p) {
      SweepOnlyThere(lib, c, slots, p);
    }
    SweepOnlyTheirRows(lib, c, slots, t);
  }

  /** A disc becomes filed by a run if and only if some title gets filed, every title that has a
      role to be filed does, and nothing raises. */
  lemma FiledIff(lib: Path, st: State, plan: Plan)
    requires CoreOk(lib, st.core) && Fileable(lib, plan) && !st.filed
    ensures Run(st, plan).filed <==>
      && !Sweep(st.core, plan.slots).raised && (exists s :: s in plan.slots && GetsFiled(st.core, s))
      && forall s :: s in plan.slots && s.fileable ==> GetsFiled(st.core, s)
  {
    var c, slots := st.core, plan.slots;
    VerdictsAgree(lib, c, slots);
    forall i | 0 <= i < |slots|
      ensures GetsFiled(c, slots[i]) == Judge(c, slots[i]).Linked? && slots[i].fileable == !Judge(c, slots[i]).NotFiled?
    {
      VerdictIff(c, slots[i]);
    }
  }

  /** What is at the series note after a run, raising or not: a run over a series that files a title
      writes the note if nothing is there; what is there, it leaves; and no other run writes one. */
  lemma SeriesNote(lib: Path, st: State, plan: Plan)
    requires CoreOk(lib, st.core) && Fileable(lib, plan)
    ensures var c, d := st.core, Run(st, plan).core;
      if plan.series && !Sweep(c, plan.slots).raised && !Exists(c, plan.show)
           && exists s :: s in plan.slots && GetsFiled(c, s)
      then plan.show in d.notes && d.notes[plan.show] == plan.showText
      else SameAt(c.notes, d.notes, plan.show) && (Exists(d, plan.show) <==> Exists(c, plan.show))
  {
    var c, slots, p := st.core, plan.slots, plan.show;
    forall i | 0 <= i < |slots| ensures Elsewhere(c, slots[i], p) {
      VerdictIff(c, slots[i]);
    }
    SweepOnlyThere(lib, c, slots, p);
    if !Sweep(c, slots).raised {
      SweepUnraised(c, slots);
      VerdictsAgree(lib, c, slots);
      assert AnyLinked(c, slots) <==> exists s :: s in slots && GetsFiled(c, s) by {
        forall i | 0 <= i < |slots| ensures GetsFiled(c, slots[i]) <==> Judge(c, slots[i]).Linked? {
          VerdictIff(c, slots[i]);
        }
      }
    }
  }

  // ---------- running again ----------

  lemma HaltedTwice(lib: Path, c: Core, s: Slot)
    requires CoreOk(lib, c) && SlotOk(lib, s) && Raises(c, s)
    ensures Raises(Halted(c, s), s) && Halted(Halted(c, s), s) == Halted(c, s)
  {
    var h := Halted(c, s);
    JudgeSteady(lib, c, s, s);
    PlaceTwice(lib, c, s);
    assert Judge(h, s) == Judge(Place(c, s), s);
    assert h == Enact(h, s, Judge(c, s)).(placed := h.placed);
  }

  /** `s` has been dealt with: placing it again would do nothing, and would not raise. */
  ghost predicate Done(c: Core, s: Slot) { Place(c, s) == c && !Raises(c, s) }

  lemma PlacedIsDone(lib: Path, c: Core, s: Slot)
    requires CoreOk(lib, c) && SlotOk(lib, s) && !Raises(c, s)
    ensures Done(Place(c, s), s)
  {
    PlaceTwice(lib, c, s);
    JudgeSteady(lib, c, s, s);
  }

  /** And it stays so when another title is placed, or raises. */
  lemma DoneStays(lib: Path, c: Core, s: Slot, h: Slot)
    requires CoreOk(lib, c) && SlotOk(lib, s) && SlotOk(lib, h) && Apart(s, h) && Apart(h, s) && Done(c, s)
    ensures Done(Place(c, h), s) && Done(Halted(c, h), s)
  {
    JudgeSteady(lib, c, h, s);
    PlaceCommutes(lib, c, s, h);
    var halted := Halted(c, h);
    assert Judge(halted, s) == Judge(c, s);
    assert Place(halted, s) == Enact(Place(c, h), s, Judge(c, s)).(placed := PlacedBy(c.placed, s, Judge(c, s)));
    assert PlacedBy(c.placed, s, Judge(c, s)) == Place(c, s).placed;
  }

  lemma {:induction false} DoneStaysSwept(lib: Path, c: Core, s: Slot, slots: seq<Slot>)
    requires CoreOk(lib, c) && SlotOk(lib, s) && PlanOk(lib, slots) && Done(c, s)
    requires forall i :: 0 <= i < |slots| ==> Apart(s, slots[i]) && Apart(slots[i], s)
    ensures Done(Sweep(c, slots).core, s)
    decreases |slots|
  {
    if slots != [] {
      DoneStays(lib, c, s, slots[0]);
      if !Raises(c, slots[0]) {
        PlaceKeepsOk(lib, c, slots[0]);
        DoneStaysSwept(lib, Place(c, slots[0]), s, slots[1..]);
      }
    }
  }

  /** Going through the titles again, whether or not it raised, does what it did and no more. */
  lemma {:induction false} SweepTwice(lib: Path, c: Core, slots: seq<Slot>)
    requires CoreOk(lib, c) && PlanOk(lib, slots)
    ensures Sweep(Sweep(c, slots).core, slots) == Sweep(c, slots)
    decreases |slots|
  {
    if slots != [] {
      var h, rest := slots[0], slots[1..];
      if Raises(c, h) {
        HaltedTwice(lib, c, h);
      } else {
        PlaceKeepsOk(lib, c, h);
        PlacedIsDone(lib, c, h);
        DoneStaysSwept(lib, Place(c, h), h, rest);
        SweepTwice(lib, Place(c, h), rest);
      }
    }
  }

  /** The series note makes no difference to that. */
  lemma {:induction false} SweepShow(lib: Path, c: Core, plan: Plan, slots: seq<Slot>)
    requires Fileable(lib, plan) && forall s :: s in slots ==> s in plan.slots
    ensures Sweep(AddShow(c, plan), slots) == Swept(AddShow(Sweep(c, slots).core, plan), Sweep(c, slots).raised)
    decreases |slots|
  {
    if slots != [] {
      var h := slots[0];
      assert h in slots;
      ShowJudge(lib, c, plan, h);
      assert Raises(AddShow(c, plan), h) == Raises(c, h);
      assert AddShow(Halted(c, h), plan) == Halted(AddShow(c, plan), h);
      SweepShow(lib, Place(c, h), plan, slots[1..]);
    }
  }

  lemma {:induction false} SweepKeepsOk(lib: Path, c: Core, slots: seq<Slot>, t: Slot)
    requires CoreOk(lib, c) && PlanOk(lib, slots) && SlotOk(lib, t)
    requires forall i :: 0 <= i < |slots| ==> slots[i] == t || Apart(t, slots[i])
    ensures CoreOk(lib, Sweep(c, slots).core) && Judge(Sweep(c, slots).core, t) == Judge(c, t)
    decreases |slots|
  {
    if slots != [] {
      var h := slots[0];
      PlaceKeepsOk(lib, c, h);
      JudgeSteady(lib, c, h, t);
      assert Judge(Halted(c, h), t) == Judge(Place(c, h), t);
      if !Raises(c, h) {
        SweepKeepsOk(lib, Place(c, h), slots[1..], t);
      }
    }
  }

  /** Safe to run again, always: one more run, after one that finished or one that raised half
      way, changes nothing. */
  lemma FilingIsIdempotent(lib: Path, st: State, plan: Plan)
    requires CoreOk(lib, st.core) && Fileable(lib, plan)
    ensures Run(Run(st, plan), plan) == Run(st, plan)
  {
    var slots, d := plan.slots, Sweep(st.core, plan.slots).core;
    SweepTwice(lib, st.core, slots);
    if !Sweep(st.core, slots).raised {
      SweepUnraised(st.core, slots);
      SweepUnraised(d, slots);
      SweepShow(lib, d, plan, slots);
      SweepUnraised(AddShow(d, plan), slots);
      AgainAgrees(lib, st, plan, d);
      AgainAgrees(lib, st, plan, AddShow(d, plan));
    }
  }

  /** The second run finds the verdicts of the first. */
  lemma AgainAgrees(lib: Path, st: State, plan: Plan, k: Core)
    requires CoreOk(lib, st.core) && Fileable(lib, plan)
    requires var d := Sweep(st.core, plan.slots).core; k == d || k == AddShow(d, plan)
    ensures SomeLinked(Verdicts(k, plan.slots)) == SomeLinked(Verdicts(st.core, plan.slots))
    ensures CompleteRun(Verdicts(k, plan.slots)) == CompleteRun(Verdicts(st.core, plan.slots))
  {
    var slots, d := plan.slots, Sweep(st.core, plan.slots).core;
    forall i | 0 <= i < |slots| ensures Judge(k, slots[i]) == Judge(st.core, slots[i]) && CoreOk(lib, k) {
      SweepKeepsOk(lib, st.core, slots, slots[i]);
      ShowJudge(lib, d, plan, slots[i]);
    }
    if slots != [] {
      VerdictsAgree(lib, k, slots);
      VerdictsAgree(lib, st.core, slots);
    }
  }

  // ---------- titles filed, or half filed, beforehand ----------

  /** What a run did to one title: all of it, or all but the placement it raised at. */
  datatype Touched = Touched(slot: Slot, full: bool)

  function Touch(c: Core, t: Touched): Core { if t.full then Place(c, t.slot) else Halted(c, t.slot) }

  function TouchAll(c: Core, some: seq<Touched>): Core
    decreases |some|
  {
    if some == [] then c else TouchAll(Touch(c, some[0]), some[1..])
  }

  ghost predicate Among(some: seq<Touched>, slots: seq<Slot>) {
    forall t :: t in some ==> t.slot in slots
  }

  lemma TouchJudge(lib: Path, c: Core, t: Touched, s: Slot)
    requires CoreOk(lib, c) && SlotOk(lib, t.slot) && SlotOk(lib, s) && (t.slot == s || Apart(s, t.slot))
    ensures Judge(Touch(c, t), s) == Judge(c, s) && CoreOk(lib, Touch(c, t))
  {
    JudgeSteady(lib, c, t.slot, s);
    PlaceKeepsOk(lib, c, t.slot);
    assert Judge(Halted(c, t.slot), s) == Judge(Place(c, t.slot), s);
  }

  /** Placing a title makes good what was left out when it raised. */
  lemma TouchThenPlace(lib: Path, c: Core, t: Touched)
    requires CoreOk(lib, c) && SlotOk(lib, t.slot)
    ensures Place(Touch(c, t), t.slot) == Place(c, t.slot)
  {
    PlaceTwice(lib, c, t.slot);
    TouchJudge(lib, c, t, t.slot);
    JudgeSteady(lib, c, t.slot, t.slot);
  }

  lemma TouchCommutes(lib: Path, c: Core, t: Touched, s: Slot)
    requires CoreOk(lib, c) && SlotOk(lib, t.slot) && SlotOk(lib, s) && Apart(s, t.slot) && Apart(t.slot, s)
    ensures Place(Touch(c, t), s) == Touch(Place(c, s), t)
  {
    PlaceCommutes(lib, c, t.slot, s);
    JudgeSteady(lib, c, t.slot, s);
    JudgeSteady(lib, c, s, t.slot);
    TouchJudge(lib, c, t, s);
  }

  lemma {:induction false} TouchedBefore(lib: Path, c: Core, plan: seq<Slot>, k: nat, full: bool)
    requires CoreOk(lib, c) && PlanOk(lib, plan) && k < |plan|
    ensures PlaceAll(Touch(c, Touched(plan[k], full)), plan) == PlaceAll(c, plan)
    decreases |plan|
  {
    var head, rest, t := plan[0], plan[1..], Touched(plan[k], full);
    if k == 0 {
      TouchThenPlace(lib, c, t);
    } else {
      TouchCommutes(lib, c, t, head);
      PlaceKeepsOk(lib, c, head);
      TouchedBefore(lib, Place(c, head), rest, k - 1, full);
    }
  }

  /** Any titles filed or half filed beforehand, in any order and number, make no difference to
      filing the whole disc. */
  lemma {:induction false} SomeTouchedBefore(lib: Path, c: Core, plan: seq<Slot>, some: seq<Touched>)
    requires CoreOk(lib, c) && PlanOk(lib, plan) && Among(some, plan)
    ensures PlaceAll(TouchAll(c, some), plan) == PlaceAll(c, plan)
    ensures CoreOk(lib, TouchAll(c, some))
    decreases |some|
  {
    if some != [] {
      var t := some[0];
      assert t in some;
      var k :| 0 <= k < |plan| && plan[k] == t.slot;
      TouchJudge(lib, c, t, t.slot);
      SomeTouchedBefore(lib, Touch(c, t), plan, some[1..]);
      TouchedBefore(lib, c, plan, k, t.full);
    }
  }

  lemma {:induction false} JudgeSteadyAll(lib: Path, c: Core, slots: seq<Slot>, some: seq<Touched>, s: Slot)
    requires CoreOk(lib, c) && PlanOk(lib, slots) && Among(some, slots) && s in slots
    ensures Judge(TouchAll(c, some), s) == Judge(c, s) && CoreOk(lib, TouchAll(c, some))
    decreases |some|
  {
    if some != [] {
      assert some[0] in some;
      TouchJudge(lib, c, some[0], s);
      JudgeSteadyAll(lib, Touch(c, some[0]), slots, some[1..], s);
    }
  }

  lemma {:induction false} TouchAllAppend(c: Core, a: seq<Touched>, b: seq<Touched>)
    ensures TouchAll(c, a + b) == TouchAll(TouchAll(c, a), b)
    decreases |a|
  {
    if a == [] {
      assert a + b == b;
    } else {
      TouchAllAppend(Touch(c, a[0]), a[1..], b);
      assert (a + b)[1..] == a[1..] + b;
    }
  }

  /** A run touches titles of the disc, and that is all it does to them. */
  lemma {:induction false} SweepTouches(c: Core, slots: seq<Slot>) returns (some: seq<Touched>)
    ensures Among(some, slots) && Sweep(c, slots).core == TouchAll(c, some)
    ensures !Sweep(c, slots).raised ==> forall s :: s in slots ==> Touched(s, true) in some
    decreases |slots|
  {
    if slots == [] {
      some := [];
    } else if Raises(c, slots[0]) {
      some := [Touched(slots[0], false)];
      assert some[1..] == [];
    } else {
      var rest := SweepTouches(Place(c, slots[0]), slots[1..]);
      some := [Touched(slots[0], true)] + rest;
      assert some[1..] == rest;
      forall s | s in slots && !Sweep(c, slots).raised ensures Touched(s, true) in some {
        assert s == slots[0] || s in slots[1..];
      }
    }
  }
}
