/** Filing and unfiling as they run over the real tables and files, and what no sequence of
    them can do to the library. */
module Library {
  import opened Text
  import opened Filing
  import C = Confluence

  // ---------- unfiling ----------

  function Removed(c: Core, p: Path): Core {
    c.(links := c.links - {p}, notes := c.notes - {p})
  }

  function UnfileTitle(lib: Path, c: Core, t: nat): Core {
    if t !in c.placed then c
    else
      var p, gone := c.placed[t].path, c.(placed := c.placed - {t});
      if Under(lib, p) then Removed(Removed(gone, p), Sidecar(p)) else gone
  }

  function UnfileTitles(lib: Path, c: Core, titles: seq<nat>): Core
    decreases |titles|
  {
    if titles == [] then c else UnfileTitles(lib, UnfileTitle(lib, c, titles[0]), titles[1..])
  }

  /** The directories unfiling leaves something out of. */
  function Emptied(lib: Path, c: Core, titles: seq<nat>): seq<Path>
    decreases |titles|
  {
    if titles == [] then []
    else
      EmptiedBy(lib, c, titles[0]) + Emptied(lib, UnfileTitle(lib, c, titles[0]), titles[1..])
  }

  function EmptiedBy(lib: Path, c: Core, t: nat): seq<Path> {
    if t in c.placed && Under(lib, c.placed[t].path) then [c.placed[t].path[..|c.placed[t].path| - 1]] else []
  }

  function Children(c: Core, dir: Path): set<Path> {
    set p | p in c.links.Keys + c.notes.Keys + c.dirs && |p| == |dir| + 1 && p[..|dir|] == dir
  }

  function ShowIn(dir: Path): Path { dir + ["tvshow.nfo"] }

  /** A series folder holding nothing but its own note counts as empty. */
  function WithoutLoneNote(c: Core, dir: Path): Core {
    if Children(c, dir) == {ShowIn(dir)} && ShowIn(dir) !in c.dirs then Removed(c, ShowIn(dir)) else c
  }

  function Prune(lib: Path, roots: set<Path>, c: Core, dir: Path): Core
    decreases |dir|
  {
    if !Under(lib, dir) || dir in roots || dir !in c.dirs then c
    else
      var d := WithoutLoneNote(c, dir);
      if Children(d, dir) != {} then d
      else Prune(lib, roots, d.(dirs := d.dirs - {dir}), dir[..|dir| - 1])
  }

  function PruneAll(lib: Path, roots: set<Path>, c: Core, dirs: seq<Path>): Core
    decreases |dirs|
  {
    if dirs == [] then c else PruneAll(lib, roots, Prune(lib, roots, c, dirs[0]), dirs[1..])
  }

  function Unfile(lib: Path, roots: set<Path>, c: Core, titles: seq<nat>): Core {
    PruneAll(lib, roots, UnfileTitles(lib, c, titles), Uniq(Emptied(lib, c, titles)))
  }

  function Uniq<T(==)>(s: seq<T>): seq<T> {
    if s == [] then []
    else Uniq(s[..|s| - 1]) + if s[|s| - 1] in s[..|s| - 1] then [] else [s[|s| - 1]]
  }

  // ---------- the services ----------

  class Service {
    const lib: Path
    const roots: set<Path>
    var core: Core
    var filed: bool

    /** Places title after title; saving a placement whose path another title holds raises,
        with the link and the sidecar already made. */
    method PlaceTitles(slots: seq<Slot>) returns (report: Report, raised: bool)
      modifies this`core
      ensures Swept(core, raised) == Sweep(old(core), slots)
      ensures !raised ==> core == PlaceAll(old(core), slots) && report == Tally(slots, Verdicts(old(core), slots))
    {
      report, raised := Report([], 0, 0, 0), false;
      ghost var vs := Verdicts(core, slots);
      assert slots[0..] == slots && vs[0..] == vs;
      VerdictsLength(core, slots);
      for i := 0 to |slots|
        invariant Sweep(core, slots[i..]) == Sweep(old(core), slots)
        invariant Verdicts(core, slots[i..]) == vs[i..]
        invariant report == Tally(slots[..i], vs[..i])
      {
        var s := slots[i];
        assert slots[i..][0] == s && slots[i..][1..] == slots[i + 1..];
        var v := Judge(core, s);
        assert v == vs[i..][0] == vs[i] && vs[i..][1..] == vs[i + 1..];
        assert slots[..i + 1][..i] == slots[..i] && vs[..i + 1][..i] == vs[..i];
        if v.Linked? && Claimed(core, s) {
          core := Halted(core, s);
          return report, true;
        }
        report := Noted(report, s, v);
        core := Enact(core, s, v);
      }
      assert slots[..|slots|] == slots && vs[..|vs|] == vs;
      assert slots[|slots|..] == [];
      SweepUnraised(old(core), slots);
    }

    /** Places every title, reporting how each one went, then settles the disc's status.  A
        disc that is blocked or that nothing has confirmed is refused whole, and a run that
        raises reports nothing and leaves the status alone. */
    method FileDisc(plan: Plan, refused: bool) returns (report: Report, raised: bool)
      modifies this
      ensures !refused ==> State(core, filed) == Run(State(old(core), old(filed)), plan)
      ensures !refused ==> core == Apply(lib, roots, old(core), FileRun(plan))
      ensures !refused ==> raised == Sweep(old(core), plan.slots).raised
      ensures !refused && !raised ==> report == Tally(plan.slots, Verdicts(old(core), plan.slots))
      ensures raised ==> filed == old(filed)
      ensures refused ==>
        core == old(core) && filed == old(filed) && !raised && report == Report([], 0, |plan.slots|, 0)
    {
      if refused {
        return Report([], 0, |plan.slots|, 0), false;
      }
      ghost var vs := Verdicts(core, plan.slots);
      report, raised := PlaceTitles(plan.slots);
      if raised {
        return;
      }
      VerdictsLength(old(core), plan.slots);
      TallyTells(plan.slots, vs);
      if plan.series && report.linked != [] {
        core := AddShow(core, plan);
      }
      if report.linked != [] && report.pending == 0 && report.skipped == 0 && report.conflicts == 0 {
        filed := true;
      }
    }

    method UnlinkFile(p: Path)
      modifies this`core
      ensures core == Removed(old(core), p)
    {
      core := core.(links := core.links - {p}, notes := core.notes - {p});
    }

    /** Walks up from a directory while it is empty, never to a root and never out of the library. */
    method PruneUp(dir: Path)
      modifies this`core
      ensures core == Prune(lib, roots, old(core), dir)
    {
      var current := dir;
      while Under(lib, current) && current !in roots && current in core.dirs
        invariant Prune(lib, roots, core, current) == Prune(lib, roots, old(core), dir)
        decreases |current|
      {
        if Children(core, current) == {ShowIn(current)} && ShowIn(current) !in core.dirs {
          UnlinkFile(ShowIn(current));
          assert core == WithoutLoneNote(core, current) || Children(core, current) != {ShowIn(current)};
        }
        if Children(core, current) != {} {
          return;
        }
        core := core.(dirs := core.dirs - {current});
        current := current[..|current| - 1];
      }
    }

    method UnlinkTitles(titles: seq<nat>) returns (dirs: seq<Path>)
      modifies this`core
      ensures core == UnfileTitles(lib, old(core), titles)
      ensures dirs == Emptied(lib, old(core), titles)
    {
      dirs := [];
      assert titles[0..] == titles;
      for i := 0 to |titles|
        invariant UnfileTitles(lib, core, titles[i..]) == UnfileTitles(lib, old(core), titles)
        invariant dirs + Emptied(lib, core, titles[i..]) == Emptied(lib, old(core), titles)
      {
        assert titles[i..][0] == titles[i] && titles[i..][1..] == titles[i + 1..];
        ghost var before := dirs;
        var dir := UnlinkTitle(titles[i]);
        dirs := dirs + dir;
        Reassociate(before, dir, Emptied(lib, core, titles[i + 1..]));
      }
      assert titles[|titles|..] == [];
      assert dirs + [] == dirs;
    }

    /** Removes one placement and, only inside the library, its file and its sidecar. */
    method UnlinkTitle(t: nat) returns (dir: seq<Path>)
      modifies this`core
      ensures core == UnfileTitle(lib, old(core), t) && dir == EmptiedBy(lib, old(core), t)
    {
      dir := [];
      if t in core.placed {
        var p := core.placed[t].path;
        core := core.(placed := core.placed - {t});
        if Under(lib, p) {
          dir := [p[..|p| - 1]];
          UnlinkFile(p);
          UnlinkFile(Sidecar(p));
        }
      }
    }

    method PruneDirs(dirs: seq<Path>)
      modifies this`core
      ensures core == PruneAll(lib, roots, old(core), dirs)
    {
      assert dirs[0..] == dirs;
      for i := 0 to |dirs|
        invariant PruneAll(lib, roots, core, dirs[i..]) == PruneAll(lib, roots, old(core), dirs)
      {
        assert dirs[i..][0] == dirs[i] && dirs[i..][1..] == dirs[i + 1..];
        PruneUp(dirs[i]);
      }
    }

    method UnfileDisc(titles: seq<nat>)
      modifies this
      ensures core == Unfile(lib, roots, old(core), titles) && !filed
      ensures core == Apply(lib, roots, old(core), UnfileRun(titles))
    {
      var dirs := UnlinkTitles(titles);
      PruneDirs(Uniq(dirs));
      filed := false;
    }
  }

  /** What a run reports: the links it stands for, and how many titles went otherwise. */
  datatype Report = Report(linked: seq<Path>, pending: nat, skipped: nat, conflicts: nat)

  function Noted(r: Report, s: Slot, v: Verdict): Report {
    match v
    case NotFiled => r
    case Waiting => r.(pending := r.pending + 1)
    case Refused(_) => r.(skipped := r.skipped + 1)
    case Conflict(_) => r.(conflicts := r.conflicts + 1)
    case Linked(_, _) => if s.dest.Some? then r.(linked := r.linked + [s.dest.value]) else r
  }

  function Tally(slots: seq<Slot>, vs: seq<Verdict>): Report
    requires |slots| == |vs|
    decreases |vs|
  {
    var n := |vs|;
    if n == 0 then Report([], 0, 0, 0) else Noted(Tally(slots[..n - 1], vs[..n - 1]), slots[n - 1], vs[n - 1])
  }

  /** The report says a disc is complete exactly when every title it would file is filed. */
  lemma {:induction false} TallyTells(slots: seq<Slot>, vs: seq<Verdict>)
    requires |slots| == |vs| && forall i :: 0 <= i < |vs| && vs[i].Linked? ==> slots[i].dest.Some?
    ensures var r := Tally(slots, vs);
      && (r.linked != [] <==> SomeLinked(vs))
      && (r.pending == 0 && r.skipped == 0 && r.conflicts == 0 <==>
          forall i :: 0 <= i < |vs| ==> vs[i].Linked? || vs[i].NotFiled?)
    decreases |vs|
  {
    var n := |vs|;
    if n > 0 {
      var front := vs[..n - 1];
      TallyTells(slots[..n - 1], front);
      assert forall i :: 0 <= i < n - 1 ==> front[i] == vs[i];
      if SomeLinked(front) {
        var i :| 0 <= i < n - 1 && front[i].Linked?;
        assert vs[i].Linked?;
      }
    }
  }

  predicate Waits(v: Verdict) { v.Waiting? }
  predicate IsRefused(v: Verdict) { v.Refused? }
  predicate Conflicts(v: Verdict) { v.Conflict? }
  predicate IsLinked(v: Verdict) { v.Linked? }

  /** How many of the verdicts are of a kind. */
  ghost function Hits(vs: seq<Verdict>, kind: Verdict -> bool): nat { |set i | 0 <= i < |vs| && kind(vs[i])| }

  lemma HitsOneMore(vs: seq<Verdict>, kind: Verdict -> bool)
    requires vs != []
    ensures Hits(vs, kind) == Hits(vs[..|vs| - 1], kind) + if kind(vs[|vs| - 1]) then 1 else 0
  {
    var n := |vs| - 1;
    var before := set i | 0 <= i < n && kind(vs[..n][i]);
    var all := set i | 0 <= i < |vs| && kind(vs[i]);
    assert all == before + if kind(vs[n]) then {n} else {};
  }

  /** The report counts the titles that wait, were refused and conflict, and lists in order where
      the linked ones are. */
  lemma {:induction false} TallyCounts(slots: seq<Slot>, vs: seq<Verdict>)
    requires |slots| == |vs| && forall i :: 0 <= i < |vs| && vs[i].Linked? ==> slots[i].dest.Some?
    ensures var r := Tally(slots, vs);
      && r.pending == Hits(vs, Waits) && r.skipped == Hits(vs, IsRefused)
      && r.conflicts == Hits(vs, Conflicts) && |r.linked| == Hits(vs, IsLinked)
      && forall i :: 0 <= i < |vs| && vs[i].Linked? ==>
           Hits(vs[..i], IsLinked) < |r.linked| && r.linked[Hits(vs[..i], IsLinked)] == slots[i].dest.value
    decreases |vs|
  {
    var n := |vs|;
    if n > 0 {
      var front := vs[..n - 1];
      TallyCounts(slots[..n - 1], front);
      HitsOneMore(vs, Waits);
      HitsOneMore(vs, IsRefused);
      HitsOneMore(vs, Conflicts);
      HitsOneMore(vs, IsLinked);
      assert forall i :: 0 <= i < n - 1 ==> front[..i] == vs[..i];
    }
  }

  lemma {:induction false} VerdictsLength(c: Core, slots: seq<Slot>)
    ensures |Verdicts(c, slots)| == |slots|
    ensures forall i :: 0 <= i < |slots| && Verdicts(c, slots)[i].Linked? ==> slots[i].dest.Some?
    decreases |slots|
  {
    if slots != [] {
      VerdictsLength(Place(c, slots[0]), slots[1..]);
    }
  }

  // ---------- what no sequence of runs can do ----------

  /** Filing or unfiling any discs, and encodes landing (or landing again) outside the library. */
  datatype Step = FileRun(plan: Plan) | UnfileRun(titles: seq<nat>) | Encoding(path: Path, inode: Inode)

  function Apply(lib: Path, roots: set<Path>, c: Core, a: Step): Core {
    match a
    case FileRun(plan) => Run(State(c, false), plan).core
    case UnfileRun(titles) => Unfile(lib, roots, c, titles)
    case Encoding(p, n) => C.Encode(lib, c, p, n)
  }

  function Exec(lib: Path, roots: set<Path>, c: Core, acts: seq<Step>): Core {
    if acts == [] then c else Apply(lib, roots, Exec(lib, roots, c, acts[..|acts| - 1]), acts[|acts| - 1])
  }

  /** From `c` to `d` no library name moved to another file, nothing outside the library
      was lost or changed, and the roots stand if they stood. */
  ghost predicate Safe(lib: Path, roots: set<Path>, c: Core, d: Core) {
    && (forall p :: p in c.links && p in d.links ==> d.links[p] == c.links[p])
    && (forall p :: p in c.links && !Under(lib, p) ==> p in d.links)
    && (forall r :: r in roots && r in c.dirs ==> r in d.dirs)
  }

  lemma SafeChain(lib: Path, roots: set<Path>, c: Core, d: Core, e: Core)
    requires Safe(lib, roots, c, d) && Safe(lib, roots, d, e) && e.links.Keys <= d.links.Keys
    ensures Safe(lib, roots, c, e)
  {
  }

  lemma {:induction false} UnfileTitlesSafe(lib: Path, roots: set<Path>, c: Core, titles: seq<nat>)
    ensures var d := UnfileTitles(lib, c, titles);
      Safe(lib, roots, c, d) && d.links.Keys <= c.links.Keys && d.dirs == c.dirs
    decreases |titles|
  {
    if titles != [] {
      var t := titles[0];
      if t in c.placed && Under(lib, c.placed[t].path) {
        SidecarStaysUnder(lib, c.placed[t].path);
      }
      UnfileTitlesSafe(lib, roots, UnfileTitle(lib, c, t), titles[1..]);
    }
  }

  lemma SidecarStaysUnder(lib: Path, p: Path)
    requires Under(lib, p)
    ensures Under(lib, Sidecar(p))
  {
    if IsMedia(p) {
      SidecarShape(p);
      assert p[..|p| - 1][..|lib|] == lib;
      assert Sidecar(p)[..|lib|] == Sidecar(p)[..|p| - 1][..|lib|];
    }
  }

  lemma {:induction false} PruneSafe(lib: Path, roots: set<Path>, c: Core, dir: Path)
    ensures var d := Prune(lib, roots, c, dir); Safe(lib, roots, c, d) && d.links.Keys <= c.links.Keys
    decreases |dir|
  {
    if Under(lib, dir) && dir !in roots && dir in c.dirs {
      var d := WithoutLoneNote(c, dir);
      assert Under(lib, ShowIn(dir)) by {
        assert ShowIn(dir)[..|lib|] == dir[..|lib|];
      }
      if Children(d, dir) == {} {
        PruneSafe(lib, roots, d.(dirs := d.dirs - {dir}), dir[..|dir| - 1]);
      }
    }
  }

  lemma {:induction false} PruneAllSafe(lib: Path, roots: set<Path>, c: Core, dirs: seq<Path>)
    ensures var d := PruneAll(lib, roots, c, dirs); Safe(lib, roots, c, d) && d.links.Keys <= c.links.Keys
    decreases |dirs|
  {
    if dirs != [] {
      PruneSafe(lib, roots, c, dirs[0]);
      var d := Prune(lib, roots, c, dirs[0]);
      PruneAllSafe(lib, roots, d, dirs[1..]);
      SafeChain(lib, roots, c, d, PruneAll(lib, roots, d, dirs[1..]));
    }
  }

  /** No run of either service repoints a name, loses a file outside the library, or
      removes a root.  (An encode may replace its own file, outside the library.) */
  lemma StepIsSafe(lib: Path, roots: set<Path>, c: Core, a: Step)
    requires !a.Encoding?
    ensures Safe(lib, roots, c, Apply(lib, roots, c, a))
  {
    match a
    case FileRun(plan) => C.RunKeeps(State(c, false), plan);
    case UnfileRun(titles) =>
      UnfileTitlesSafe(lib, roots, c, titles);
      PruneAllSafe(lib, roots, UnfileTitles(lib, c, titles), Uniq(Emptied(lib, c, titles)));
      SafeChain(lib, roots, c, UnfileTitles(lib, c, titles), Unfile(lib, roots, c, titles));
    case Encoding(_, _) =>
  }

  /** Over every sequence of filing, unfiling and encoding: every file outside the library
      survives, every root survives, and no step ever repoints an existing library name. */
  lemma {:induction false} LibraryIsNeverClobbered(lib: Path, roots: set<Path>, c: Core, acts: seq<Step>)
    ensures var d := Exec(lib, roots, c, acts);
      && (forall p :: p in c.links && !Under(lib, p) ==> p in d.links)
      && (forall r :: r in roots && r in c.dirs ==> r in d.dirs)
    ensures acts != [] ==>
      var b, d := Exec(lib, roots, c, acts[..|acts| - 1]), Exec(lib, roots, c, acts);
      forall p :: Under(lib, p) && p in b.links && p in d.links ==> d.links[p] == b.links[p]
    decreases |acts|
  {
    if acts != [] {
      var before, a := acts[..|acts| - 1], acts[|acts| - 1];
      LibraryIsNeverClobbered(lib, roots, c, before);
      if !a.Encoding? {
        StepIsSafe(lib, roots, Exec(lib, roots, c, before), a);
      }
    }
  }

  // ---------- what unfiling takes away ----------

  function Parent(dir: Path): Path
    requires dir != []
  {
    dir[..|dir| - 1]
  }

  /** Nothing is in `dir`, or only a series note. */
  predicate Bare(c: Core, dir: Path) {
    Children(c, dir) == {} || (Children(c, dir) == {ShowIn(dir)} && ShowIn(dir) !in c.dirs)
  }

  /** `dir` is none that unfiling should have taken away: it is gone, or not its to take, or there is
      something in it. */
  ghost predicate Tidy(lib: Path, roots: set<Path>, c: Core, dir: Path) {
    Under(lib, dir) && dir !in roots && dir in c.dirs ==> !Bare(c, dir)
  }

  lemma OnlyChildrenOf(c: Core, dir: Path, x: Path)
    requires dir != x
    ensures Children(WithoutLoneNote(c, dir), x) == Children(c, x)
    ensures dir != [] && Parent(dir) != x ==> Children(c.(dirs := c.dirs - {dir}), x) == Children(c, x)
  {
    assert ShowIn(dir)[..|dir|] == dir;
    assert forall p :: p in Children(c, x) && |x| == |dir| ==> p[..|dir|] == x;
    assert dir != [] && Parent(dir) != x ==> dir !in Children(c, x);
  }

  /** A walk up leaves its own directory tidy, and every directory that was. */
  lemma {:induction false} PruneTidies(lib: Path, roots: set<Path>, c: Core, dir: Path, x: Path)
    requires x == dir || Tidy(lib, roots, c, x)
    ensures Tidy(lib, roots, Prune(lib, roots, c, dir), x)
    decreases |dir|
  {
    if Under(lib, dir) && dir !in roots && dir in c.dirs {
      var d := WithoutLoneNote(c, dir);
      if x != dir {
        OnlyChildrenOf(c, dir, x);
        OnlyChildrenOf(d, dir, x);
      }
      if Children(d, dir) == {} {
        PruneTidies(lib, roots, d.(dirs := d.dirs - {dir}), Parent(dir), x);
      }
    }
  }

  /** Nothing new, and nothing renamed or repointed. */
  ghost predicate Shrunk(c: Core, d: Core) {
    && d.dirs <= c.dirs && (forall p :: p in d.links ==> p in c.links && d.links[p] == c.links[p])
    && (forall p :: p in d.notes ==> p in c.notes && d.notes[p] == c.notes[p])
  }

  /** From `c` to `d`, pruning took away directories with nothing in them, below the roots, leaving
      the ones above tidy; and no file but the series note of a directory that went. */
  ghost predicate Pruned(lib: Path, roots: set<Path>, c: Core, d: Core) {
    && Shrunk(c, d) && d.placed == c.placed && d.encoded == c.encoded
    && (forall x :: x in c.dirs && x !in d.dirs ==>
          Under(lib, x) && x !in roots && Children(d, x) == {} && Tidy(lib, roots, d, Parent(x)))
    && (forall p :: p in c.links && p !in d.links ==> NoteOfGone(c, d, p))
    && (forall p :: p in c.notes && p !in d.notes ==> NoteOfGone(c, d, p))
  }

  ghost predicate NoteOfGone(c: Core, d: Core, p: Path) {
    p != [] && p == ShowIn(Parent(p)) && Parent(p) in c.dirs && Parent(p) !in d.dirs
  }

  lemma ShrunkChildren(c: Core, d: Core, x: Path)
    requires Shrunk(c, d)
    ensures Children(d, x) <= Children(c, x)
  {
  }

  /** `e` is `c` without `dir`, which had nothing in it but perhaps its note. */
  ghost predicate Dropped(c: Core, e: Core, dir: Path) {
    && Shrunk(c, e) && e.dirs == c.dirs - {dir} && e.placed == c.placed && e.encoded == c.encoded
    && Children(e, dir) == {}
    && (forall p :: p in c.links && p !in e.links ==> p == ShowIn(dir))
    && (forall p :: p in c.notes && p !in e.notes ==> p == ShowIn(dir))
  }

  lemma LoneNote(c: Core, dir: Path)
    ensures var d := WithoutLoneNote(c, dir);
      if Children(d, dir) == {} then Dropped(c, d.(dirs := d.dirs - {dir}), dir) else d == c
  {
    var d := WithoutLoneNote(c, dir);
    if Children(c, dir) == {ShowIn(dir)} && ShowIn(dir) !in c.dirs {
      ShrunkChildren(c, d, dir);
      assert ShowIn(dir) !in Children(d, dir);
    }
    ShrunkChildren(d, d.(dirs := d.dirs - {dir}), dir);
  }

  lemma DroppedThen(lib: Path, roots: set<Path>, c: Core, e: Core, d: Core, dir: Path)
    requires Under(lib, dir) && dir !in roots && dir in c.dirs && Dropped(c, e, dir)
    requires Pruned(lib, roots, e, d) && Tidy(lib, roots, d, Parent(dir))
    ensures Pruned(lib, roots, c, d)
  {
    ShrunkChildren(e, d, dir);
    assert Parent(ShowIn(dir)) == dir;
    forall p | NoteOfGone(e, d, p) ensures NoteOfGone(c, d, p) {
    }
  }

  lemma {:induction false} PrunePrunes(lib: Path, roots: set<Path>, c: Core, dir: Path)
    ensures Pruned(lib, roots, c, Prune(lib, roots, c, dir))
    decreases |dir|
  {
    if Under(lib, dir) && dir !in roots && dir in c.dirs {
      var d := WithoutLoneNote(c, dir);
      LoneNote(c, dir);
      if Children(d, dir) == {} {
        var e := d.(dirs := d.dirs - {dir});
        PrunePrunes(lib, roots, e, Parent(dir));
        PruneTidies(lib, roots, e, Parent(dir), Parent(dir));
        DroppedThen(lib, roots, c, e, Prune(lib, roots, e, Parent(dir)), dir);
      }
    }
  }

  lemma PrunedThen(lib: Path, roots: set<Path>, c: Core, d: Core, e: Core)
    requires Pruned(lib, roots, c, d) && Pruned(lib, roots, d, e)
    requires forall x :: Tidy(lib, roots, d, x) ==> Tidy(lib, roots, e, x)
    ensures Pruned(lib, roots, c, e)
  {
    forall x | x in c.dirs && x !in e.dirs
      ensures Under(lib, x) && x !in roots && Children(e, x) == {} && Tidy(lib, roots, e, Parent(x))
    {
      if x !in d.dirs {
        ShrunkChildren(d, e, x);
      }
    }
  }

  lemma {:induction false} PruneAllPrunes(lib: Path, roots: set<Path>, c: Core, dirs: seq<Path>)
    ensures var d := PruneAll(lib, roots, c, dirs);
      && Pruned(lib, roots, c, d)
      && (forall x :: x in dirs || Tidy(lib, roots, c, x) ==> Tidy(lib, roots, d, x))
    decreases |dirs|
  {
    if dirs != [] {
      var d := Prune(lib, roots, c, dirs[0]);
      PrunePrunes(lib, roots, c, dirs[0]);
      forall x | x == dirs[0] || Tidy(lib, roots, c, x) ensures Tidy(lib, roots, d, x) {
        PruneTidies(lib, roots, c, dirs[0], x);
      }
      PruneAllPrunes(lib, roots, d, dirs[1..]);
      PrunedThen(lib, roots, c, d, PruneAll(lib, roots, d, dirs[1..]));
    }
  }

  /** `t` is to be unfiled and its placement is in the library. */
  ghost predicate TakenOut(lib: Path, c: Core, titles: seq<nat>, t: nat) {
    t in titles && t in c.placed && Under(lib, c.placed[t].path)
  }

  /** `p` is the file of such a title, or its sidecar. */
  ghost predicate Wiped(lib: Path, c: Core, titles: seq<nat>, p: Path) {
    exists t :: TakenOut(lib, c, titles, t) && (p == c.placed[t].path || p == Sidecar(c.placed[t].path))
  }

  /** Such a title's file was in `dir`. */
  ghost predicate LeftBy(lib: Path, c: Core, titles: seq<nat>, dir: Path) {
    exists t :: TakenOut(lib, c, titles, t) && dir == Parent(c.placed[t].path)
  }

  lemma TakenOutStep(lib: Path, c: Core, titles: seq<nat>, t: nat)
    requires titles != []
    ensures TakenOut(lib, c, titles, t) <==>
      (t == titles[0] && TakenOut(lib, c, [t], t)) || TakenOut(lib, UnfileTitle(lib, c, titles[0]), titles[1..], t)
    ensures t != titles[0] && t in c.placed ==>
      t in UnfileTitle(lib, c, titles[0]).placed && UnfileTitle(lib, c, titles[0]).placed[t] == c.placed[t]
  {
    assert UnfileTitle(lib, c, titles[0]).placed == c.placed - {titles[0]};
    assert titles == [titles[0]] + titles[1..];
  }

  lemma {:induction false} WipesExactly(lib: Path, c: Core, titles: seq<nat>, p: Path)
    ensures var d := UnfileTitles(lib, c, titles);
      && d.dirs == c.dirs && d.encoded == c.encoded
      && if Wiped(lib, c, titles, p) then p !in d.links && p !in d.notes
         else SameAt(c.links, d.links, p) && SameAt(c.notes, d.notes, p)
    decreases |titles|
  {
    if titles != [] {
      var b, rest := UnfileTitle(lib, c, titles[0]), titles[1..];
      WipesExactly(lib, b, rest, p);
      WipedStep(lib, c, titles, p);
    }
  }

  lemma WipedStep(lib: Path, c: Core, titles: seq<nat>, p: Path)
    requires titles != []
    ensures Wiped(lib, c, titles, p) <==>
      Wiped(lib, c, [titles[0]], p) || Wiped(lib, UnfileTitle(lib, c, titles[0]), titles[1..], p)
  {
    var b, rest := UnfileTitle(lib, c, titles[0]), titles[1..];
    if Wiped(lib, c, titles, p) {
      var t :| TakenOut(lib, c, titles, t) && (p == c.placed[t].path || p == Sidecar(c.placed[t].path));
      TakenOutStep(lib, c, titles, t);
    }
    if Wiped(lib, b, rest, p) {
      var t :| TakenOut(lib, b, rest, t) && (p == b.placed[t].path || p == Sidecar(b.placed[t].path));
      TakenOutStep(lib, c, titles, t);
    }
    if Wiped(lib, c, [titles[0]], p) {
      var t :| TakenOut(lib, c, [titles[0]], t) && (p == c.placed[t].path || p == Sidecar(c.placed[t].path));
      TakenOutStep(lib, c, titles, t);
    }
  }

  lemma {:induction false} PlacementsGo(lib: Path, c: Core, titles: seq<nat>, t: nat)
    ensures var d := UnfileTitles(lib, c, titles);
      if t in titles then t !in d.placed else SameAt(c.placed, d.placed, t)
    decreases |titles|
  {
    if titles != [] {
      assert UnfileTitle(lib, c, titles[0]).placed == c.placed - {titles[0]};
      PlacementsGo(lib, UnfileTitle(lib, c, titles[0]), titles[1..], t);
    }
  }

  lemma {:induction false} EmptiedAreLeft(lib: Path, c: Core, titles: seq<nat>, dir: Path)
    requires LeftBy(lib, c, titles, dir)
    ensures dir in Emptied(lib, c, titles)
    decreases |titles|
  {
    var t :| TakenOut(lib, c, titles, t) && dir == Parent(c.placed[t].path);
    TakenOutStep(lib, c, titles, t);
    if t != titles[0] {
      EmptiedAreLeft(lib, UnfileTitle(lib, c, titles[0]), titles[1..], dir);
    }
  }

  lemma {:induction false} UniqKeeps<T>(s: seq<T>, x: T)
    ensures x in Uniq(s) <==> x in s
  {
    if s != [] {
      UniqKeeps(s[..|s| - 1], x);
    }
  }

  /** What unfiling takes away, and what it leaves.  The files and sidecars of the disc's titles go,
      if they are in the library, and so do its placements, wherever they pointed.  A directory
      goes only with nothing left in it, and one that a file was taken out of, or a directory, stays
      only with something in it besides a series note, unless it is a root.  Apart from the note of
      a directory that goes, nothing else is touched. */
  lemma UnfileTakes(lib: Path, roots: set<Path>, c: Core, titles: seq<nat>, p: Path, x: Path, t: nat)
    ensures var d := Unfile(lib, roots, c, titles);
      && d.encoded == c.encoded && (if t in titles then t !in d.placed else SameAt(c.placed, d.placed, t))
      && (if Wiped(lib, c, titles, p) then p !in d.links && p !in d.notes
          else (SameAt(c.links, d.links, p) && SameAt(c.notes, d.notes, p)) || NoteOfGone(c, d, p))
      && d.dirs <= c.dirs && (x in c.dirs && Children(d, x) != {} ==> x in d.dirs)
      && (LeftBy(lib, c, titles, x) ==> Tidy(lib, roots, d, x))
      && (x in c.dirs && x !in d.dirs ==> Under(lib, x) && x !in roots && Tidy(lib, roots, d, Parent(x)))
  {
    var b, d := UnfileTitles(lib, c, titles), Unfile(lib, roots, c, titles);
    var dirs := Uniq(Emptied(lib, c, titles));
    WipesExactly(lib, c, titles, p);
    PlacementsGo(lib, c, titles, t);
    PruneAllPrunes(lib, roots, b, dirs);
    if LeftBy(lib, c, titles, x) {
      EmptiedAreLeft(lib, c, titles, x);
      UniqKeeps(Emptied(lib, c, titles), x);
    }
  }

  // ---------- unfiling undoes filing ----------

  /** What one run over a never-filed disc with free destinations leaves to undo. */
  ghost predicate FiledFrom(c: Core, d: Core, slots: seq<Slot>) {
    && (forall p :: p in c.links ==> p in d.links && d.links[p] == c.links[p])
    && (forall p :: p in d.links && p !in c.links ==>
          exists i :: 0 <= i < |slots| && slots[i].title in d.placed && d.placed[slots[i].title].path == p)
    && (forall i :: 0 <= i < |slots| && slots[i].title in d.placed ==>
          slots[i].dest.Some? && d.placed[slots[i].title].path == slots[i].dest.value)
  }

  lemma {:induction false} OthersStayPlaced(c: Core, slots: seq<Slot>, t: nat)
    requires forall i :: 0 <= i < |slots| ==> slots[i].title != t
    ensures t in PlaceAll(c, slots).placed <==> t in c.placed
    ensures t in c.placed ==> PlaceAll(c, slots).placed[t] == c.placed[t]
    decreases |slots|
  {
    if slots != [] {
      OthersStayPlaced(Place(c, slots[0]), slots[1..], t);
    }
  }

  lemma {:induction false} PlaceAllFiledFrom(c: Core, slots: seq<Slot>)
    requires forall i :: 0 <= i < |slots| ==> slots[i].title !in c.placed
    requires forall i, j :: 0 <= i < j < |slots| ==> slots[i].title != slots[j].title
    ensures FiledFrom(c, PlaceAll(c, slots), slots)
    decreases |slots|
  {
    if slots != [] {
      var h, rest, d := slots[0], slots[1..], PlaceAll(c, slots);
      var b := Place(c, h);
      PlaceAllFiledFrom(b, rest);
      OthersStayPlaced(b, rest, h.title);
      forall p | p in d.links && p !in c.links
        ensures exists i :: 0 <= i < |slots| && slots[i].title in d.placed && d.placed[slots[i].title].path == p
      {
        if p in b.links {
          assert slots[0].title in d.placed && d.placed[slots[0].title].path == p;
        } else {
          var i :| 0 <= i < |rest| && rest[i].title in d.placed && d.placed[rest[i].title].path == p;
          assert slots[i + 1] == rest[i];
        }
      }
      forall i | 0 <= i < |slots| && slots[i].title in d.placed
        ensures slots[i].dest.Some? && d.placed[slots[i].title].path == slots[i].dest.value
      {
        assert i > 0 ==> rest[i - 1] == slots[i];
      }
    }
  }

  ghost predicate Undone(lib: Path, c: Core, titles: seq<nat>, p: Path) {
    exists i :: 0 <= i < |titles| && titles[i] in c.placed && c.placed[titles[i]].path == p && Under(lib, p)
  }

  ghost predicate PlacedAt(lib: Path, c: Core, t: nat, p: Path) {
    t in c.placed && c.placed[t].path == p && Under(lib, p)
  }

  lemma UnfileOne(lib: Path, c: Core, t: nat, p: Path)
    requires IsMkv(p)
    ensures var d := UnfileTitle(lib, c, t);
      && (p in d.links <==> p in c.links && !PlacedAt(lib, c, t, p))
      && (p in d.links ==> d.links[p] == c.links[p])
  {
    if t in c.placed && IsMkv(c.placed[t].path) {
      SidecarApart(c.placed[t].path, p);
    }
  }

  lemma UndoneStep(lib: Path, c: Core, titles: seq<nat>, p: Path)
    requires titles != []
    ensures Undone(lib, c, titles, p) <==>
      PlacedAt(lib, c, titles[0], p) || Undone(lib, UnfileTitle(lib, c, titles[0]), titles[1..], p)
  {
    var t, rest := titles[0], titles[1..];
    var b := UnfileTitle(lib, c, t);
    assert b.placed == c.placed - {t};
    if Undone(lib, b, rest, p) {
      var i :| 0 <= i < |rest| && rest[i] in b.placed && b.placed[rest[i]].path == p && Under(lib, p);
      assert titles[i + 1] == rest[i];
    } else if Undone(lib, c, titles, p) {
      var i :| 0 <= i < |titles| && titles[i] in c.placed && c.placed[titles[i]].path == p && Under(lib, p);
      assert i > 0 ==> rest[i - 1] == titles[i];
    }
  }

  lemma {:induction false} UnfileRemoves(lib: Path, c: Core, titles: seq<nat>, p: Path)
    requires IsMkv(p)
    ensures var d := UnfileTitles(lib, c, titles);
      && (p in d.links <==> p in c.links && !Undone(lib, c, titles, p))
      && (p in d.links ==> d.links[p] == c.links[p])
    decreases |titles|
  {
    if titles != [] {
      UnfileOne(lib, c, titles[0], p);
      UndoneStep(lib, c, titles, p);
      UnfileRemoves(lib, UnfileTitle(lib, c, titles[0]), titles[1..], p);
    }
  }

  function TitlesOf(slots: seq<Slot>): seq<nat> {
    seq(|slots|, i requires 0 <= i < |slots| => slots[i].title)
  }

  /** `p` names what it named, or nothing as before. */
  ghost predicate SameName(c: Core, d: Core, p: Path) {
    (p in d.links <==> p in c.links) && (p in c.links ==> d.links[p] == c.links[p])
  }

  /** A disc no title of which was ever filed, with every destination free. */
  ghost predicate NeverFiled(c: Core, slots: seq<Slot>) {
    forall i :: 0 <= i < |slots| ==>
      slots[i].title !in c.placed && (slots[i].dest.Some? ==> slots[i].dest.value !in c.links)
  }

  lemma {:induction false} PruneSparesMedia(lib: Path, roots: set<Path>, c: Core, dir: Path, p: Path)
    requires IsMkv(p)
    ensures SameName(c, Prune(lib, roots, c, dir), p)
    decreases |dir|
  {
    if Under(lib, dir) && dir !in roots && dir in c.dirs {
      var d := WithoutLoneNote(c, dir);
      assert "tvshow.nfo"[6..] == ".nfo" && ShowIn(dir)[|dir|] == "tvshow.nfo";
      assert p != ShowIn(dir);
      if Children(d, dir) == {} {
        PruneSparesMedia(lib, roots, d.(dirs := d.dirs - {dir}), dir[..|dir| - 1], p);
      }
    }
  }

  lemma {:induction false} PruneAllSparesMedia(lib: Path, roots: set<Path>, c: Core, dirs: seq<Path>, p: Path)
    requires IsMkv(p)
    ensures SameName(c, PruneAll(lib, roots, c, dirs), p)
    decreases |dirs|
  {
    if dirs != [] {
      PruneSparesMedia(lib, roots, c, dirs[0], p);
      PruneAllSparesMedia(lib, roots, Prune(lib, roots, c, dirs[0]), dirs[1..], p);
    }
  }

  /** Filing onto free destinations and unfiling leaves every .mkv name as it was. */
  lemma FiledThenUnfiled(lib: Path, roots: set<Path>, c: Core, d: Core, slots: seq<Slot>, p: Path)
    requires PlanOk(lib, slots) && NeverFiled(c, slots) && IsMkv(p)
    requires d.links == PlaceAll(c, slots).links && d.placed == PlaceAll(c, slots).placed
    ensures SameName(c, Unfile(lib, roots, d, TitlesOf(slots)), p)
  {
    var titles := TitlesOf(slots);
    PlaceAllFiledFrom(c, slots);
    UnfileRemoves(lib, d, titles, p);
    PruneAllSparesMedia(lib, roots, UnfileTitles(lib, d, titles), Uniq(Emptied(lib, d, titles)), p);
    if p in d.links && p !in c.links {
      var i :| 0 <= i < |slots| && slots[i].title in d.placed && d.placed[slots[i].title].path == p;
      assert titles[i] == slots[i].title;
      assert Undone(lib, d, titles, p);
    }
    if Undone(lib, d, titles, p) {
      var i :| 0 <= i < |titles| && titles[i] in d.placed && d.placed[titles[i]].path == p;
      assert slots[i].title == titles[i];
    }
  }

  lemma {:induction false} OthersStaySwept(c: Core, slots: seq<Slot>, t: nat)
    requires forall i :: 0 <= i < |slots| ==> slots[i].title != t
    ensures t in Sweep(c, slots).core.placed <==> t in c.placed
    ensures t in c.placed ==> Sweep(c, slots).core.placed[t] == c.placed[t]
    decreases |slots|
  {
    if slots != [] && !Raises(c, slots[0]) {
      OthersStaySwept(Place(c, slots[0]), slots[1..], t);
    }
  }

  /** The title a run raised at has its link and no placement. */
  lemma {:induction false} RaisedAt(lib: Path, c: Core, slots: seq<Slot>) returns (i: nat)
    requires PlanOk(lib, slots) && Sweep(c, slots).raised
    requires forall j :: 0 <= j < |slots| ==> slots[j].title !in c.placed
    ensures var d := Sweep(c, slots).core;
      && i < |slots| && slots[i].dest.Some? && slots[i].dest.value in d.links && slots[i].title !in d.placed
      && forall j :: 0 <= j < |slots| && slots[j].title in d.placed ==>
           slots[j].dest.Some? && d.placed[slots[j].title].path == slots[j].dest.value
    decreases |slots|
  {
    var h, rest, d := slots[0], slots[1..], Sweep(c, slots).core;
    if Raises(c, h) {
      i := 0;
    } else {
      assert forall j :: 0 <= j < |rest| ==> rest[j] == slots[j + 1] && Apart(h, slots[j + 1]);
      i := RaisedAt(lib, Place(c, h), rest);
      OthersStaySwept(Place(c, h), rest, h.title);
      i := i + 1;
      forall j | 0 <= j < |slots| && slots[j].title in d.placed
        ensures slots[j].dest.Some? && d.placed[slots[j].title].path == slots[j].dest.value {
        assert j > 0 ==> rest[j - 1] == slots[j];
      }
    }
  }

  /** Undo is exact if and only if the run did not raise: filing a never-filed disc and unfiling
      it, the series note and the emptied directories included, leaves every .mkv name as it
      was, present or absent, and pointing where it pointed. */
  lemma UnfileUndoesFile(lib: Path, roots: set<Path>, st: State, plan: Plan)
    requires PlanOk(lib, plan.slots) && NeverFiled(st.core, plan.slots)
    ensures var d := Unfile(lib, roots, Run(st, plan).core, TitlesOf(plan.slots));
      (forall p :: IsMkv(p) ==> SameName(st.core, d, p)) <==> !Sweep(st.core, plan.slots).raised
  {
    var c, slots, titles, b := st.core, plan.slots, TitlesOf(plan.slots), Run(st, plan).core;
    var d := Unfile(lib, roots, b, titles);
    if Sweep(c, slots).raised {
      var i := RaisedAt(lib, c, slots);
      var p := slots[i].dest.value;
      assert SlotOk(lib, slots[i]);
      assert !Undone(lib, b, titles, p);
      UnfileRemoves(lib, b, titles, p);
      PruneAllSparesMedia(lib, roots, UnfileTitles(lib, b, titles), Uniq(Emptied(lib, b, titles)), p);
      assert !SameName(c, d, p);
    } else {
      forall p | IsMkv(p) ensures SameName(c, d, p) {
        FiledThenUnfiled(lib, roots, c, b, slots, p);
      }
    }
  }
}
