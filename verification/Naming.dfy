/** What a filed title is called, and exactly when two titles of a disc want the same name. */
module Naming {
  import opened Text
  import opened Filing
  import C = Confluence

  // ---------- cleaning a name ----------

  predicate Illegal(c: char) {
    c in "/\\:*?\"<>|" || (c as int) < 0x20
  }

  function Blanked(s: string): string {
    seq(|s|, i requires 0 <= i < |s| => if Illegal(s[i]) then ' ' else s[i])
  }

  /** Runs of spaces become one; no other white space that Ruby's \s knows is left by now. */
  function Squeezed(s: string): string {
    if |s| >= 2 && s[0] == ' ' && s[1] == ' ' then Squeezed(s[1..])
    else if s == "" then ""
    else [s[0]] + Squeezed(s[1..])
  }

  function DropLeft(s: string): string {
    if s != "" && s[0] == ' ' then DropLeft(s[1..]) else s
  }

  function DropRight(s: string, cs: string): string {
    if s != "" && s[|s| - 1] in cs then DropRight(s[..|s| - 1], cs) else s
  }

  function Clean(s: string): string {
    DropRight(DropRight(DropLeft(Squeezed(Blanked(s))), " "), ". ")
  }

  ghost predicate Legal(s: string) { forall i :: 0 <= i < |s| ==> !Illegal(s[i]) }

  ghost predicate SingleSpaced(s: string) { forall i :: 0 <= i < |s| - 1 ==> s[i] != ' ' || s[i + 1] != ' ' }

  ghost predicate IsClean(s: string) {
    Legal(s) && SingleSpaced(s) && (s != "" ==> s[0] != ' ' && s[|s| - 1] != ' ' && s[|s| - 1] != '.')
  }

  lemma {:induction false} SqueezedSpacing(s: string)
    requires Legal(s)
    ensures Legal(Squeezed(s)) && SingleSpaced(Squeezed(s))
    ensures s != "" ==> Squeezed(s) != "" && Squeezed(s)[0] == s[0]
    ensures SingleSpaced(s) ==> Squeezed(s) == s
  {
    if |s| >= 2 && s[0] == ' ' && s[1] == ' ' {
      SqueezedSpacing(s[1..]);
    } else if s != "" {
      var rest := s[1..];
      SqueezedSpacing(rest);
      assert s == [s[0]] + rest;
      if SingleSpaced(s) {
        forall i | 0 <= i < |rest| - 1 ensures rest[i] != ' ' || rest[i + 1] != ' ' {
          assert s[i + 1] != ' ' || s[i + 2] != ' ';
        }
      }
    }
  }

  lemma {:induction false} DropLeftIsSuffix(s: string) returns (k: nat)
    ensures k <= |s| && DropLeft(s) == s[k..]
    ensures DropLeft(s) != "" ==> DropLeft(s)[0] != ' '
    ensures s == "" || s[0] != ' ' ==> DropLeft(s) == s
  {
    if s != "" && s[0] == ' ' {
      k := DropLeftIsSuffix(s[1..]);
      k := k + 1;
    } else {
      k := 0;
    }
  }

  lemma {:induction false} DropRightIsPrefix(s: string, cs: string) returns (k: nat)
    ensures k <= |s| && DropRight(s, cs) == s[..k]
    ensures DropRight(s, cs) != "" ==> DropRight(s, cs)[k - 1] !in cs
    ensures s == "" || s[|s| - 1] !in cs ==> DropRight(s, cs) == s
  {
    if s != "" && s[|s| - 1] in cs {
      k := DropRightIsPrefix(s[..|s| - 1], cs);
    } else {
      k := |s|;
    }
  }

  /** Cutting a legal, single-spaced text at both ends leaves one. */
  lemma SliceStaysLegal(s: string, i: nat, j: nat)
    requires Legal(s) && SingleSpaced(s) && i <= j <= |s|
    ensures Legal(s[i..j]) && SingleSpaced(s[i..j])
  {
    var t := s[i..j];
    forall k | 0 <= k < |t| - 1 ensures t[k] != ' ' || t[k + 1] != ' ' {
      assert t[k] == s[i + k] && t[k + 1] == s[i + k + 1];
    }
  }

  lemma TrimmedIsSlice(q: string) returns (i: nat, j: nat)
    ensures i <= j <= |q| && DropRight(DropRight(DropLeft(q), " "), ". ") == q[i..j]
    ensures i < j ==> q[i] != ' ' && q[j - 1] !in ". "
  {
    i := DropLeftIsSuffix(q);
    var l := DropLeft(q);
    var m := DropRightIsPrefix(l, " ");
    var r := DropRight(l, " ");
    var n := DropRightIsPrefix(r, ". ");
    j := i + n;
    assert r[..n] == l[..n];
    assert l[..n] == q[i..j];
    if n > 0 {
      assert l[0] == q[i] && r[n - 1] == l[n - 1] == q[j - 1];
    }
  }

  lemma TrimmedIsClean(q: string)
    requires Legal(q) && SingleSpaced(q)
    ensures IsClean(DropRight(DropRight(DropLeft(q), " "), ". "))
  {
    var i, j := TrimmedIsSlice(q);
    SliceStaysLegal(q, i, j);
    assert ' ' in ". " && '.' in ". ";
  }

  /** A cleaned name holds no path separator and no reserved character, does not begin or end
      with a space or end with a dot; and names like that are exactly the ones left alone. */
  lemma CleanIff(s: string)
    ensures IsClean(Clean(s))
    ensures Clean(s) == s <==> IsClean(s)
  {
    SqueezedSpacing(Blanked(s));
    TrimmedIsClean(Squeezed(Blanked(s)));
    if IsClean(s) {
      CleanStays(s);
    }
  }

  lemma CleanStays(s: string)
    requires IsClean(s)
    ensures Clean(s) == s
  {
    assert Blanked(s) == s;
    SqueezedSpacing(s);
    var k := DropLeftIsSuffix(s);
    var m := DropRightIsPrefix(s, " ");
    var n := DropRightIsPrefix(s, ". ");
  }

  lemma CleanTwice(s: string)
    ensures Clean(Clean(s)) == Clean(s)
  {
    CleanIff(s);
    CleanIff(Clean(s));
  }

  /** What a name is recognised by: its characters but spaces, dots and those no name may have. */
  function Letters(s: string): string {
    if s == "" then ""
    else Letter(s[0]) + Letters(s[1..])
  }

  function Letter(c: char): string {
    if c in "/\\:*?\"<>| ." || (c as int) < 0x20 then "" else [c]
  }

  /** No cleaned name holds a separator, a character Windows reserves, or a control character. */
  lemma CleanIsPortable(s: string, i: nat)
    requires i < |Clean(s)|
    ensures Clean(s)[i] !in ['/', '\\', ':', '*', '?', '\"', '<', '>', '|'] && (Clean(s)[i] as int) >= 0x20
  {
    CleanIff(s);
    assert !Illegal(Clean(s)[i]);
  }

  lemma {:induction false} LettersAppend(a: string, b: string)
    ensures Letters(a + b) == Letters(a) + Letters(b)
  {
    if a == "" {
      assert a + b == b;
    } else {
      LettersAppend(a[1..], b);
      assert (a + b)[0] == a[0] && (a + b)[1..] == a[1..] + b;
      Reassociate(Letter(a[0]), Letters(a[1..]), Letters(b));
    }
  }

  lemma {:induction false} BlankedLetters(s: string)
    ensures Letters(Blanked(s)) == Letters(s)
  {
    if s != "" {
      BlankedLetters(s[1..]);
      assert Blanked(s)[1..] == Blanked(s[1..]);
    }
  }

  lemma {:induction false} SqueezedLetters(s: string)
    ensures Letters(Squeezed(s)) == Letters(s)
  {
    if s != "" {
      SqueezedLetters(s[1..]);
      assert ([s[0]] + Squeezed(s[1..]))[1..] == Squeezed(s[1..]);
    }
  }

  lemma {:induction false} DropLeftLetters(s: string)
    ensures Letters(DropLeft(s)) == Letters(s)
  {
    if s != "" && s[0] == ' ' {
      DropLeftLetters(s[1..]);
    }
  }

  lemma {:induction false} DropRightLetters(s: string, cs: string)
    requires forall c :: c in cs ==> c == ' ' || c == '.'
    ensures Letters(DropRight(s, cs)) == Letters(s)
  {
    if s != "" && s[|s| - 1] in cs {
      var front, last := s[..|s| - 1], s[|s| - 1];
      DropRightLetters(front, cs);
      NoLetter(front, last);
      assert s == front + [last];
    }
  }

  lemma NoLetter(s: string, c: char)
    requires c == ' ' || c == '.'
    ensures Letters(s + [c]) == Letters(s)
  {
    LettersAppend(s, [c]);
    assert [c][1..] == "" && Letters([c]) == "" && Letters(s) + "" == Letters(s);
  }

  /** Cleaning loses nothing a name is recognised by, and changes no order. */
  lemma CleanKeeps(s: string)
    ensures Letters(Clean(s)) == Letters(s)
  {
    var q := Squeezed(Blanked(s));
    BlankedLetters(s);
    SqueezedLetters(Blanked(s));
    DropLeftLetters(q);
    DropRightLetters(DropLeft(q), " ");
    DropRightLetters(DropRight(DropLeft(q), " "), ". ");
  }

  // ---------- where a title goes ----------

  datatype Role = Feature | Episode | Extra | Ignored | Unset

  datatype Confirmed = Confirmed(kind: string, name: string, year: int, season: Option<int>)

  predicate Film(d: Confirmed) { d.kind == "movie" }

  datatype Title = Title(index: int, season: Option<int>, episode: Option<int>, name: string)

  function OrUnsorted(s: string): string { if Blank(s) then "Unsorted" else s }

  function MovieBase(d: Confirmed): string {
    if d.year > 0 then OrUnsorted(Clean(d.name)) + " (" + Int(d.year) + ")" else OrUnsorted(Clean(d.name))
  }

  function MovieDir(lib: Path, d: Confirmed): Path { lib + ["Movies", MovieBase(d)] }

  function SeriesDir(lib: Path, d: Confirmed): Path { lib + ["TV", OrUnsorted(Clean(d.name))] }

  function SeasonOf(d: Confirmed, t: Title): Option<int> {
    if t.season.Some? then t.season else d.season
  }

  function EpisodeName(t: Title): string {
    if Blank(Clean(t.name)) then "" else Clean(t.name)
  }

  function EpisodeTail(t: Title): string {
    if EpisodeName(t) == "" then "" else " - " + EpisodeName(t)
  }

  function EpisodeBase(d: Confirmed, t: Title, season: int, episode: int): string {
    Clean(d.name) + " - S" + TwoDigits(season) + "E" + (TwoDigits(episode) + EpisodeTail(t))
  }

  function Leaf(t: Title): string {
    if Blank(Clean(t.name)) then "t" + TwoDigits(t.index) else Clean(t.name)
  }

  function ExtraBase(d: Confirmed): string { Clean(if Film(d) then MovieBase(d) else Clean(d.name)) }

  function Destination(lib: Path, d: Confirmed, t: Title, role: Role): Option<Path> {
    match role
    case Feature => if Film(d) then Some(MovieDir(lib, d) + [MovieBase(d) + ".mkv"]) else None
    case Episode =>
      if SeasonOf(d, t).None? || t.episode.None? then None
      else
        var s := SeasonOf(d, t).value;
        Some(SeriesDir(lib, d) + ["Season " + TwoDigits(s), EpisodeBase(d, t, s, t.episode.value) + ".mkv"])
    case Extra =>
      Some((if Film(d) then MovieDir(lib, d) else SeriesDir(lib, d))
           + ["extras", ExtraBase(d) + " - " + Leaf(t) + ".mkv"])
    case _ => None
  }

  /** Holds no separator and is neither empty, nor `.`, nor `..`. */
  ghost predicate IsName(s: string) { '/' !in s && s != "" && s != "." && s != ".." }

  lemma CleanName(s: string)
    ensures '/' !in Clean(s) && IsName(OrUnsorted(Clean(s)))
  {
    CleanIff(s);
    assert forall i :: 0 <= i < |Clean(s)| ==> Clean(s)[i] != '/';
  }

  lemma FileName(stem: string)
    requires '/' !in stem
    ensures IsName(stem + ".mkv")
  {
    assert |stem + ".mkv"| > 2;
  }

  lemma MovieBaseName(d: Confirmed)
    ensures IsName(MovieBase(d))
  {
    CleanName(d.name);
    IntAvoids(d.year, '/');
    var name := OrUnsorted(Clean(d.name));
    assert d.year > 0 ==> '/' !in name + " (" + Int(d.year) + ")" && |MovieBase(d)| > 2;
  }

  lemma EpisodeFileName(d: Confirmed, t: Title, s: int, e: int)
    ensures IsName("Season " + TwoDigits(s)) && IsName(EpisodeBase(d, t, s, e) + ".mkv")
  {
    CleanName(d.name);
    CleanName(t.name);
    TwoDigitsAvoids(s, '/');
    TwoDigitsAvoids(e, '/');
    assert '/' !in EpisodeTail(t);
    assert '/' !in "Season " + TwoDigits(s) && |"Season " + TwoDigits(s)| > 2;
    FileName(EpisodeBase(d, t, s, e));
  }

  lemma ExtraFileName(d: Confirmed, t: Title)
    ensures IsName(ExtraBase(d) + " - " + Leaf(t) + ".mkv")
  {
    CleanName(MovieBase(d));
    CleanName(Clean(d.name));
    CleanName(t.name);
    TwoDigitsAvoids(t.index, '/');
    assert '/' !in Leaf(t);
    FileName(ExtraBase(d) + " - " + Leaf(t));
  }

  /** Whatever was typed or read off the disc, every component below the library is a plain
      name, so joining them with separators goes exactly as deep as it looks and never up. */
  lemma DestinationStaysInside(lib: Path, d: Confirmed, t: Title, role: Role, k: nat)
    requires Destination(lib, d, t, role).Some? && |lib| <= k < |Destination(lib, d, t, role).value|
    ensures IsName(Destination(lib, d, t, role).value[k])
  {
    match role
    case Feature => FeatureNames(lib, d, k);
    case Episode => EpisodeNames(lib, d, t, k);
    case Extra => ExtraNames(lib, d, t, k);
  }

  lemma FeatureNames(lib: Path, d: Confirmed, k: nat)
    requires |lib| <= k < |lib| + 3
    ensures IsName((MovieDir(lib, d) + [MovieBase(d) + ".mkv"])[k])
  {
    MovieBaseName(d);
    FileName(MovieBase(d));
    var movies, base := "Movies", MovieBase(d);
    assert IsName(movies);
    assert MovieDir(lib, d) + [base + ".mkv"] == lib + [movies, base, base + ".mkv"];
    TailNames(lib, [movies, base, base + ".mkv"], k);
  }

  lemma FourNames(lib: Path, a: string, b: string, c: string, d: string, k: nat)
    requires IsName(a) && IsName(b) && IsName(c) && IsName(d) && |lib| <= k < |lib| + 4
    ensures IsName((lib + [a, b] + [c, d])[k])
  {
    assert lib + [a, b] + [c, d] == lib + [a, b, c, d];
    TailNames(lib, [a, b, c, d], k);
  }

  lemma EpisodeNames(lib: Path, d: Confirmed, t: Title, k: nat)
    requires Destination(lib, d, t, Episode).Some? && |lib| <= k < |lib| + 4
    ensures |Destination(lib, d, t, Episode).value| == |lib| + 4 && IsName(Destination(lib, d, t, Episode).value[k])
  {
    var s, e, tv := SeasonOf(d, t).value, t.episode.value, "TV";
    CleanName(d.name);
    EpisodeFileName(d, t, s, e);
    assert IsName(tv);
    FourNames(lib, tv, OrUnsorted(Clean(d.name)), "Season " + TwoDigits(s), EpisodeBase(d, t, s, e) + ".mkv", k);
  }

  lemma ExtraNames(lib: Path, d: Confirmed, t: Title, k: nat)
    requires |lib| <= k < |lib| + 4
    ensures |Destination(lib, d, t, Extra).value| == |lib| + 4 && IsName(Destination(lib, d, t, Extra).value[k])
  {
    MovieBaseName(d);
    CleanName(d.name);
    ExtraFileName(d, t);
    var movies, tv, extras := "Movies", "TV", "extras";
    assert IsName(movies) && IsName(tv) && IsName(extras);
    var file := ExtraBase(d) + " - " + Leaf(t) + ".mkv";
    if Film(d) {
      FourNames(lib, movies, MovieBase(d), extras, file, k);
    } else {
      FourNames(lib, tv, OrUnsorted(Clean(d.name)), extras, file, k);
    }
  }

  lemma TailNames(lib: Path, names: Path, k: nat)
    requires |lib| <= k < |lib| + |names| && forall i :: 0 <= i < |names| ==> IsName(names[i])
    ensures IsName((lib + names)[k])
  {
  }

  // ---------- names that tell titles apart ----------

  lemma TwoDigitsInjective(m: int, n: int)
    requires TwoDigits(m) == TwoDigits(n)
    ensures m == n
  {
    TwoDigitsSign(m);
    TwoDigitsSign(n);
    if m < 0 {
      IntInjective(m, n);
    } else {
      TwoDigitsValue(m);
      TwoDigitsValue(n);
    }
  }

  lemma TwoDigitsSign(n: int)
    ensures TwoDigits(n) != "" && (TwoDigits(n)[0] == '-' <==> n < 0)
  {
    IntSign(n);
  }

  lemma TwoDigitsValue(n: nat)
    ensures Value(TwoDigits(n)) == n
  {
    if n < 10 {
      OneDigit(n);
    } else {
      NatRoundTrip(n);
    }
  }

  lemma OneDigit(n: nat)
    requires n < 10
    ensures TwoDigits(n) == "0" + [Digit(n)] && Value("0" + [Digit(n)]) == n
  {
    assert Nat(n) == "" + [Digit(n)] == [Digit(n)];
    assert Value("0") == 10 * Value("0"[..0]) + DigitValue('0') == 0;
    OneMoreDigit("0", n);
  }

  lemma TwoDigitsAvoids(n: int, c: char)
    requires c != '-' && !('0' <= c <= '9')
    ensures c !in TwoDigits(n)
  {
    IntAvoids(n, c);
  }

  lemma PrefixCancels(p: string, a: string, b: string)
    requires p + a == p + b
    ensures a == b
  {
    assert a == (p + a)[|p|..] && b == (p + b)[|p|..];
  }

  lemma SuffixCancels(a: string, b: string, s: string)
    requires a + s == b + s
    ensures a == b
  {
    assert |a| == |b|;
    assert a == (a + s)[..|a|] && b == (b + s)[..|b|];
  }

  lemma LastTwo(p: Path, a: string, b: string, c: string, d: string)
    ensures p + [a, b] == p + [c, d] <==> a == c && b == d
  {
    assert (p + [a, b])[|p|] == a && (p + [c, d])[|p|] == c;
    assert (p + [a, b])[|p| + 1] == b && (p + [c, d])[|p| + 1] == d;
  }

  /** A number followed by nothing, or by a space and more, determines both. */
  lemma NumberThenTail(m: int, x: string, n: int, y: string)
    requires x == "" || x[0] == ' '
    requires y == "" || y[0] == ' '
    requires TwoDigits(m) + x == TwoDigits(n) + y
    ensures m == n && x == y
  {
    NumberBefore(m, x);
    NumberBefore(n, y);
    TwoDigitsInjective(m, n);
    PrefixCancels(TwoDigits(m), x, y);
  }

  lemma NumberBefore(m: int, x: string)
    requires x == "" || x[0] == ' '
    ensures Before(TwoDigits(m) + x, ' ') == TwoDigits(m)
  {
    TwoDigitsAvoids(m, ' ');
    if x == "" {
      assert TwoDigits(m) + x == TwoDigits(m);
      BeforeIsPrefix(TwoDigits(m), ' ');
    } else {
      assert TwoDigits(m) + x == TwoDigits(m) + [' '] + x[1..];
      BeforeSeparator(TwoDigits(m), ' ', x[1..]);
    }
  }

  /** Two titles of a disc are given one place. */
  predicate SamePlace(d: Confirmed, t: Title, rt: Role, u: Title, ru: Role) {
    || (rt == Feature && ru == Feature)
    || (rt == Episode && ru == Episode
        && SeasonOf(d, t) == SeasonOf(d, u) && t.episode == u.episode && EpisodeName(t) == EpisodeName(u))
    || (rt == Extra && ru == Extra && Leaf(t) == Leaf(u))
  }

  lemma EpisodesClash(d: Confirmed, t: Title, s: int, e: int, u: Title, s': int, e': int)
    requires s == s' && EpisodeBase(d, t, s, e) + ".mkv" == EpisodeBase(d, u, s', e') + ".mkv"
    ensures e == e' && EpisodeName(t) == EpisodeName(u)
  {
    var p := Clean(d.name) + " - S" + TwoDigits(s) + "E";
    SuffixCancels(EpisodeBase(d, t, s, e), EpisodeBase(d, u, s', e'), ".mkv");
    PrefixCancels(p, TwoDigits(e) + EpisodeTail(t), TwoDigits(e') + EpisodeTail(u));
    NumberThenTail(e, EpisodeTail(t), e', EpisodeTail(u));
    if EpisodeTail(t) != "" {
      PrefixCancels(" - ", EpisodeName(t), EpisodeName(u));
    }
  }

  lemma EpisodePlaces(lib: Path, d: Confirmed, t: Title, u: Title)
    requires Destination(lib, d, t, Episode).Some? && Destination(lib, d, u, Episode).Some?
    ensures Destination(lib, d, t, Episode) == Destination(lib, d, u, Episode) <==> SamePlace(d, t, Episode, u, Episode)
  {
    var s, s' := SeasonOf(d, t).value, SeasonOf(d, u).value;
    var e, e' := t.episode.value, u.episode.value;
    var file, file' := EpisodeBase(d, t, s, e) + ".mkv", EpisodeBase(d, u, s', e') + ".mkv";
    LastTwo(SeriesDir(lib, d), "Season " + TwoDigits(s), file, "Season " + TwoDigits(s'), file');
    if Destination(lib, d, t, Episode) == Destination(lib, d, u, Episode) {
      PrefixCancels("Season ", TwoDigits(s), TwoDigits(s'));
      TwoDigitsInjective(s, s');
      EpisodesClash(d, t, s, e, u, s', e');
    }
  }

  lemma ExtraPlaces(lib: Path, d: Confirmed, t: Title, u: Title)
    ensures Destination(lib, d, t, Extra) == Destination(lib, d, u, Extra) <==> Leaf(t) == Leaf(u)
  {
    var p := ExtraBase(d) + " - ";
    var parent := if Film(d) then MovieDir(lib, d) else SeriesDir(lib, d);
    LastTwo(parent, "extras", p + Leaf(t) + ".mkv", "extras", p + Leaf(u) + ".mkv");
    if Destination(lib, d, t, Extra) == Destination(lib, d, u, Extra) {
      SuffixCancels(p + Leaf(t), p + Leaf(u), ".mkv");
      PrefixCancels(p, Leaf(t), Leaf(u));
    }
  }

  /** The shape of a destination: which root, which folder, and how deep. */
  lemma Shape(lib: Path, d: Confirmed, t: Title, role: Role)
    requires Destination(lib, d, t, role).Some?
    ensures var p, n := Destination(lib, d, t, role).value, |lib|;
      && lib <= p && (role == Feature ==> |p| == n + 3) && (role != Feature ==> |p| == n + 4)
      && p[n] == (if Film(d) && role != Episode then "Movies" else "TV")
      && (role == Feature || role == Episode || role == Extra)
      && (role == Episode ==> p[n + 2] == "Season " + TwoDigits(SeasonOf(d, t).value))
      && (role == Extra ==> p[n + 2] == "extras")
      && (role == Feature ==> Film(d))
      && IsMkv(p)
  {
    match role
    case Feature => TailShape(lib, ["Movies", MovieBase(d)], [], MovieBase(d));
    case Episode =>
      var s := SeasonOf(d, t).value;
      TailShape(lib, ["TV", OrUnsorted(Clean(d.name))], ["Season " + TwoDigits(s)],
                EpisodeBase(d, t, s, t.episode.value));
    case Extra =>
      TailShape(lib, if Film(d) then ["Movies", MovieBase(d)] else ["TV", OrUnsorted(Clean(d.name))], ["extras"],
                ExtraBase(d) + " - " + Leaf(t));
  }

  lemma TailShape(lib: Path, top: Path, sub: Path, stem: string)
    requires |top| == 2 && |sub| <= 1
    ensures var p, n := lib + top + (sub + [stem + ".mkv"]), |lib|;
      && lib <= p && |p| == n + 3 + |sub| && p[n] == top[0] && p[n + 1] == top[1]
      && (sub != [] ==> p[n + 2] == sub[0]) && IsMkv(p)
  {
    var p := lib + top + (sub + [stem + ".mkv"]);
    assert p[|p| - 1] == stem + ".mkv" && (stem + ".mkv")[|stem|..] == ".mkv";
    assert p[..|lib|] == lib;
  }

  /** Two titles of a disc are sent to the same path exactly when both are the feature, or
      both are the same episode under the same title, or both are extras of one name. */
  lemma ClashIff(lib: Path, d: Confirmed, t: Title, rt: Role, u: Title, ru: Role)
    requires Destination(lib, d, t, rt).Some? && Destination(lib, d, u, ru).Some?
    ensures Destination(lib, d, t, rt) == Destination(lib, d, u, ru) <==> SamePlace(d, t, rt, u, ru)
  {
    Shape(lib, d, t, rt);
    Shape(lib, d, u, ru);
    if rt == ru {
      if rt == Episode {
        EpisodePlaces(lib, d, t, u);
      } else if rt == Extra {
        ExtraPlaces(lib, d, t, u);
      }
    } else if rt != Feature && ru != Feature {
      SeasonIsNotExtras(SeasonOf(d, if rt == Episode then t else u).value);
    }
  }

  lemma SeasonIsNotExtras(s: int)
    ensures "Season " + TwoDigits(s) != "extras" && "Season " + TwoDigits(s) != "tvshow.nfo"
  {
    assert ("Season " + TwoDigits(s))[0] == 'S';
  }

  /** Extras without a name are told apart by their index; the only other way to clash is to
      be named alike, or for one to be named as the other is numbered. */
  lemma LeafClashIff(t: Title, u: Title)
    requires t.index != u.index
    ensures Leaf(t) == Leaf(u) <==>
      ((!Blank(Clean(t.name)) && !Blank(Clean(u.name)) && Clean(t.name) == Clean(u.name))
       || (Blank(Clean(t.name)) && Clean(u.name) == "t" + TwoDigits(t.index))
       || (Blank(Clean(u.name)) && Clean(t.name) == "t" + TwoDigits(u.index)))
  {
    NumberedIsNotBlank(t.index);
    NumberedIsNotBlank(u.index);
    if Blank(Clean(t.name)) && Blank(Clean(u.name)) && Leaf(t) == Leaf(u) {
      PrefixCancels("t", TwoDigits(t.index), TwoDigits(u.index));
      TwoDigitsInjective(t.index, u.index);
    }
  }

  lemma NumberedIsNotBlank(i: int)
    ensures !Blank("t" + TwoDigits(i))
  {
    assert !IsSpace(("t" + TwoDigits(i))[0]);
  }

  // ---------- when two discs meet ----------

  function FilmName(d: Confirmed): string { OrUnsorted(Clean(d.name)) }

  /** Two films get one folder: the same name and year, or both without a year, or one whose name
      already ends in the year the other has. */
  predicate SameFilm(d: Confirmed, e: Confirmed) {
    || (FilmName(d) == FilmName(e) && (d.year == e.year || (d.year <= 0 && e.year <= 0)))
    || (d.year <= 0 < e.year && FilmName(d) == FilmName(e) + " (" + Int(e.year) + ")")
    || (e.year <= 0 < d.year && FilmName(e) == FilmName(d) + " (" + Int(d.year) + ")")
  }

  lemma LastAt(a: string, c: char, x: string)
    requires c !in x
    ensures var s := a + [c] + x; s[|a|] == c && forall i :: |a| < i < |s| ==> s[i] != c
  {
  }

  /** Text after the last separator determines both parts too. */
  lemma LastSeparatorSplits(a: string, b: string, c: char, x: string, y: string)
    requires c !in x && c !in y && a + [c] + x == b + [c] + y
    ensures a == b && x == y
  {
    LastAt(a, c, x);
    LastAt(b, c, y);
    assert |a| == |b|;
    assert a == (a + [c] + x)[..|a|] && x == (a + [c] + x)[|a| + 1..];
    assert b == (b + [c] + y)[..|b|] && y == (b + [c] + y)[|b| + 1..];
  }

  lemma Bracketed(x: string, n: int)
    ensures x + " (" + Int(n) + ")" == (x + " ") + ['('] + (Int(n) + ")")
    ensures '(' !in Int(n) + ")"
  {
    IntAvoids(n, '(');
  }

  lemma YearedFilms(x: string, m: int, y: string, n: int)
    requires x + " (" + Int(m) + ")" == y + " (" + Int(n) + ")"
    ensures x == y && m == n
  {
    Bracketed(x, m);
    Bracketed(y, n);
    LastSeparatorSplits(x + " ", y + " ", '(', Int(m) + ")", Int(n) + ")");
    SuffixCancels(x, y, " ");
    SuffixCancels(Int(m), Int(n), ")");
    IntInjective(m, n);
  }

  lemma FilmFolderIff(d: Confirmed, e: Confirmed)
    ensures MovieBase(d) == MovieBase(e) <==> SameFilm(d, e)
  {
    if MovieBase(d) == MovieBase(e) && d.year > 0 && e.year > 0 {
      YearedFilms(FilmName(d), d.year, FilmName(e), e.year);
    }
  }

  /** The folder a title goes to: the film's, or the series'. */
  lemma Folder(lib: Path, d: Confirmed, t: Title, role: Role)
    requires Destination(lib, d, t, role).Some?
    ensures var p, n := Destination(lib, d, t, role).value, |lib|;
      |p| > n + 1 && p[n + 1] == if Film(d) && role != Episode then MovieBase(d) else FilmName(d)
  {
    Shape(lib, d, t, role);
  }

  /** What follows a blank name begins at its first character that is not a space. */
  lemma BlankEnds(a: string, x: string, i: nat)
    requires Blank(a) && |x| > 1 && x[0] == ' ' && x[1] == '-' && i < |a + x|
    ensures i <= |a| ==> IsSpace((a + x)[i])
    ensures i == |a| + 1 ==> !IsSpace((a + x)[i])
  {
  }

  /** Different names that become one folder tell the files in it apart. */
  lemma NamesTell(a: string, b: string, x: string, y: string)
    requires OrUnsorted(a) == OrUnsorted(b) && |x| > 1 && x[0] == ' ' && x[1] == '-'
    requires |y| > 1 && y[0] == ' ' && y[1] == '-' && a + x == b + y
    ensures a == b
  {
    if Blank(a) {
      BlankEnds(a, x, 0);
      BlankEnds(a, x, |a| + 1);
      if |b| < |a| {
        BlankEnds(a, x, |b| + 1);
      }
    }
    if Blank(b) {
      BlankEnds(b, y, 0);
      BlankEnds(b, y, |b| + 1);
      if |a| < |b| {
        BlankEnds(b, y, |a| + 1);
      }
    }
    assert !IsSpace("Unsorted"[0]);
    if |a| == |b| {
      assert a == (a + x)[..|a|] && b == (b + y)[..|b|];
    }
  }

  function EpisodeRest(t: Title, s: int, k: int): string {
    " - S" + TwoDigits(s) + "E" + (TwoDigits(k) + EpisodeTail(t))
  }

  lemma EpisodeFile(lib: Path, d: Confirmed, t: Title)
    requires Destination(lib, d, t, Episode).Some?
    ensures var p, rest := Destination(lib, d, t, Episode).value, EpisodeRest(t, SeasonOf(d, t).value, t.episode.value);
      |p| == |lib| + 4 && p[|lib| + 3] == Clean(d.name) + rest + ".mkv" && |rest| > 1 && rest[..2] == " -"
  {
    EpisodeBaseSplits(d, t, SeasonOf(d, t).value, t.episode.value);
  }

  lemma EpisodeBaseSplits(d: Confirmed, t: Title, s: int, k: int)
    ensures EpisodeBase(d, t, s, k) == Clean(d.name) + EpisodeRest(t, s, k)
    ensures |EpisodeRest(t, s, k)| > 1 && EpisodeRest(t, s, k)[..2] == " -"
  {
    Regrouped(Clean(d.name), " - S", TwoDigits(s), "E", TwoDigits(k) + EpisodeTail(t));
  }

  lemma Regrouped(a: string, b: string, c: string, d: string, e: string)
    requires |b| >= 2
    ensures a + b + c + d + e == a + (b + c + d + e) && (b + c + d + e)[..2] == b[..2]
  {
  }

  lemma ExtraFile(lib: Path, d: Confirmed, t: Title)
    ensures var p, rest := Destination(lib, d, t, Extra).value, " - " + Leaf(t);
      |p| == |lib| + 4 && p[|lib| + 3] == ExtraBase(d) + rest + ".mkv" && rest[..2] == " -"
  {
    assert ExtraBase(d) + " - " + Leaf(t) == ExtraBase(d) + (" - " + Leaf(t));
  }

  lemma OneSeries(a: string, x: string, b: string, y: string)
    requires OrUnsorted(a) == OrUnsorted(b) && a + x + ".mkv" == b + y + ".mkv"
    requires |x| > 1 && x[..2] == " -" && |y| > 1 && y[..2] == " -"
    ensures a == b
  {
    SuffixCancels(a + x, b + y, ".mkv");
    assert x[0] == x[..2][0] && x[1] == x[..2][1] && y[0] == y[..2][0] && y[1] == y[..2][1];
    NamesTell(a, b, x, y);
  }

  /** On two discs of one name, episodes meet as they would on one. */
  lemma NamesakesMeet(lib: Path, d: Confirmed, t: Title, e: Confirmed, u: Title)
    requires Destination(lib, d, t, Episode).Some? && Destination(lib, e, u, Episode).Some?
    requires Clean(d.name) == Clean(e.name)
    ensures Destination(lib, d, t, Episode) == Destination(lib, e, u, Episode) <==>
      SeasonOf(d, t) == SeasonOf(e, u) && t.episode == u.episode && EpisodeName(t) == EpisodeName(u)
  {
    var s, k, u' := SeasonOf(e, u).value, u.episode.value, u.(season := SeasonOf(e, u));
    assert EpisodeBase(d, u', s, k) == EpisodeBase(e, u, s, k);
    assert Destination(lib, d, u', Episode) == Destination(lib, e, u, Episode);
    ClashIff(lib, d, t, Episode, u', Episode);
  }

  lemma EpisodesMeet(lib: Path, d: Confirmed, t: Title, e: Confirmed, u: Title)
    requires Destination(lib, d, t, Episode).Some? && Destination(lib, e, u, Episode).Some?
    ensures Destination(lib, d, t, Episode) == Destination(lib, e, u, Episode) <==>
      && Clean(d.name) == Clean(e.name) && SeasonOf(d, t) == SeasonOf(e, u)
      && t.episode == u.episode && EpisodeName(t) == EpisodeName(u)
  {
    if Clean(d.name) == Clean(e.name) {
      NamesakesMeet(lib, d, t, e, u);
    } else if Destination(lib, d, t, Episode) == Destination(lib, e, u, Episode) {
      Folder(lib, d, t, Episode);
      Folder(lib, e, u, Episode);
      EpisodeFile(lib, d, t);
      EpisodeFile(lib, e, u);
      OneSeries(Clean(d.name), EpisodeRest(t, SeasonOf(d, t).value, t.episode.value),
                Clean(e.name), EpisodeRest(u, SeasonOf(e, u).value, u.episode.value));
    }
  }

  lemma ExtrasMeet(lib: Path, d: Confirmed, t: Title, e: Confirmed, u: Title)
    requires Film(d) == Film(e)
    ensures Destination(lib, d, t, Extra) == Destination(lib, e, u, Extra) <==>
      Leaf(t) == Leaf(u) && if Film(d) then SameFilm(d, e) else Clean(d.name) == Clean(e.name)
  {
    FilmFolderIff(d, e);
    if if Film(d) then SameFilm(d, e) else Clean(d.name) == Clean(e.name) {
      assert Destination(lib, e, u, Extra) == Destination(lib, d, u, Extra);
      ExtraPlaces(lib, d, t, u);
    } else if Destination(lib, d, t, Extra) == Destination(lib, e, u, Extra) {
      Folder(lib, d, t, Extra);
      Folder(lib, e, u, Extra);
      ExtraFile(lib, d, t);
      ExtraFile(lib, e, u);
      CleanTwice(d.name);
      CleanTwice(e.name);
      OneSeries(Clean(d.name), " - " + Leaf(t), Clean(e.name), " - " + Leaf(u));
    }
  }

  /** Titles of any two discs are sent to one path if and only if both are the feature of what gets
      one film folder, or the same episode of one series under the same title, or extras of one
      name to one film or one series. */
  lemma DiscsClashIff(lib: Path, d: Confirmed, t: Title, rt: Role, e: Confirmed, u: Title, ru: Role)
    requires Destination(lib, d, t, rt).Some? && Destination(lib, e, u, ru).Some?
    ensures Destination(lib, d, t, rt) == Destination(lib, e, u, ru) <==>
      || (rt == Feature && ru == Feature && SameFilm(d, e))
      || (rt == Episode && ru == Episode && Clean(d.name) == Clean(e.name)
          && SeasonOf(d, t) == SeasonOf(e, u) && t.episode == u.episode && EpisodeName(t) == EpisodeName(u))
      || (rt == Extra && ru == Extra && Leaf(t) == Leaf(u) && Film(d) == Film(e)
          && if Film(d) then SameFilm(d, e) else Clean(d.name) == Clean(e.name))
  {
    Shape(lib, d, t, rt);
    Shape(lib, e, u, ru);
    Folder(lib, d, t, rt);
    Folder(lib, e, u, ru);
    if rt == ru {
      match rt
      case Feature => FilmFolderIff(d, e);
      case Episode => EpisodesMeet(lib, d, t, e, u);
      case Extra =>
        if Film(d) == Film(e) {
          ExtrasMeet(lib, d, t, e, u);
        }
    } else if rt != Feature && ru != Feature {
      SeasonIsNotExtras(if rt == Episode then SeasonOf(d, t).value else SeasonOf(e, u).value);
    }
  }

  /** A film whose name carries its year shares the folder of the one whose year is a field. */
  lemma YearInTheNameClashes(lib: Path, name: string, year: nat, t: Title, u: Title)
    requires year > 0 && IsClean(name) && !Blank(name) && IsClean(name + " (" + Int(year) + ")")
    ensures Destination(lib, Confirmed("movie", name, year, None), t, Feature)
      == Destination(lib, Confirmed("movie", name + " (" + Int(year) + ")", 0, None), u, Feature)
  {
    var d, e := Confirmed("movie", name, year, None), Confirmed("movie", name + " (" + Int(year) + ")", 0, None);
    CleanIff(name);
    CleanIff(e.name);
    assert !Blank(e.name) by {
      var i :| 0 <= i < |name| && !IsSpace(name[i]);
      assert e.name[i] == name[i];
    }
    FilmFolderIff(d, e);
  }

  /** Which titles have somewhere to go: a film's feature, an episode whose season and number are
      known, and any extra. */
  lemma DestinationIff(lib: Path, d: Confirmed, t: Title, role: Role)
    ensures Destination(lib, d, t, role).Some? <==>
      || (role == Feature && d.kind == "movie")
      || (role == Episode && (t.season.Some? || d.season.Some?) && t.episode.Some?)
      || role == Extra
  {
  }

  /** No folder has a blank name: what was confirmed, cleaned, or Unsorted. */
  lemma FolderIsNamed(d: Confirmed)
    ensures !Blank(FilmName(d)) && !Blank(MovieBase(d))
    ensures !Blank(Clean(d.name)) ==> FilmName(d) == Clean(d.name)
    ensures Blank(Clean(d.name)) ==> FilmName(d) == "Unsorted"
  {
    assert !IsSpace("Unsorted"[0]);
    var i :| 0 <= i < |FilmName(d)| && !IsSpace(FilmName(d)[i]);
    assert FilmName(d) <= MovieBase(d);
  }

  /** An episode goes where it would without a title if and only if nothing is left of its title. */
  lemma UntitledIff(lib: Path, d: Confirmed, t: Title)
    requires Destination(lib, d, t, Episode).Some?
    ensures Destination(lib, d, t, Episode) == Destination(lib, d, t.(name := ""), Episode) <==> Blank(Clean(t.name))
  {
    CleanIff("");
    assert Clean(t.name) == "" ==> Blank(Clean(t.name));
    ClashIff(lib, d, t, Episode, t.(name := ""), Episode);
  }

  // ---------- a confirmed disc as a plan for filing ----------

  /** One title with its role, its catalog id, its sidecar text and its mirrored path. */
  datatype Item = Item(title: Title, role: Role, id: nat, nfo: string, guess: Option<Path>)

  function SlotOf(lib: Path, d: Confirmed, i: Item): Slot {
    Slot(i.id, i.role == Feature || i.role == Episode || i.role == Extra,
         Destination(lib, d, i.title, i.role), i.nfo, i.guess)
  }

  function PlanOf(lib: Path, d: Confirmed, items: seq<Item>, showText: string): Plan {
    Plan(seq(|items|, i requires 0 <= i < |items| => SlotOf(lib, d, items[i])), d.kind == "series",
         SeriesDir(lib, d) + ["tvshow.nfo"], showText)
  }

  /** A run passes a title over if and only if its role is none to be filed, and takes every other
      for what the catalog says of it; and only a series gets a series note, beside its seasons. */
  lemma RolesDecide(lib: Path, d: Confirmed, items: seq<Item>, showText: string, c: Core, i: nat)
    requires i < |items|
    ensures var plan, it := PlanOf(lib, d, items, showText), items[i];
      && |plan.slots| == |items| && plan.slots[i].title == it.id
      && plan.slots[i].dest == Destination(lib, d, it.title, it.role)
      && plan.slots[i].nfo == it.nfo && plan.slots[i].guess == it.guess && plan.showText == showText
      && (Judge(c, plan.slots[i]).NotFiled? <==> it.role == Ignored || it.role == Unset)
      && (plan.series <==> d.kind == "series") && plan.show == SeriesDir(lib, d) + ["tvshow.nfo"]
  {
    match items[i].role
    case Feature =>
    case Episode =>
    case Extra =>
    case Ignored =>
    case Unset =>
  }

  /** Catalog ids are distinct and the encoded tree is not inside the library. */
  ghost predicate Catalogued(lib: Path, items: seq<Item>) {
    && (forall i, j :: 0 <= i < j < |items| ==> items[i].id != items[j].id)
    && (forall i :: 0 <= i < |items| && items[i].guess.Some? ==> !Under(lib, items[i].guess.value))
  }

  ghost predicate NoClash(lib: Path, d: Confirmed, items: seq<Item>) {
    forall i, j :: 0 <= i < j < |items|
      && Destination(lib, d, items[i].title, items[i].role).Some?
      && Destination(lib, d, items[j].title, items[j].role).Some?
      ==> !SamePlace(d, items[i].title, items[i].role, items[j].title, items[j].role)
  }

  lemma NeverInside(lib: Path, d: Confirmed, t: Title, rt: Role, u: Title, ru: Role)
    requires Destination(lib, d, t, rt).Some? && Destination(lib, d, u, ru).Some?
    ensures Destination(lib, d, t, rt).value !in Ancestors(Destination(lib, d, u, ru).value)
  {
    Shape(lib, d, t, rt);
    Shape(lib, d, u, ru);
    var p, q, n := Destination(lib, d, t, rt).value, Destination(lib, d, u, ru).value, |lib|;
    NotMkv(if ru == Episode then SeasonOf(d, u).value else 0);
    forall k | 0 < k < |q| ensures q[..k] != p {
      if k == n + 3 {
        assert q[..k][n + 2] == q[n + 2];
      }
    }
  }

  lemma NotMkv(s: int)
    ensures var folder := "Season " + TwoDigits(s); folder[|folder| - 1] != 'v'
    ensures "extras"[5] != 'v'
  {
    TwoDigitsSign(s);
    TwoDigitsAvoids(s, 'v');
    var folder, last := "Season " + TwoDigits(s), TwoDigits(s)[|TwoDigits(s)| - 1];
    assert folder[|folder| - 1] == last;
    assert last in TwoDigits(s);
  }

  lemma PairApart(lib: Path, d: Confirmed, a: Item, b: Item)
    requires a.id != b.id
    ensures Apart(SlotOf(lib, d, a), SlotOf(lib, d, b)) <==>
      (Destination(lib, d, a.title, a.role).Some? && Destination(lib, d, b.title, b.role).Some?
       ==> !SamePlace(d, a.title, a.role, b.title, b.role))
    ensures Apart(SlotOf(lib, d, a), SlotOf(lib, d, b)) == Apart(SlotOf(lib, d, b), SlotOf(lib, d, a))
  {
    if Destination(lib, d, a.title, a.role).Some? && Destination(lib, d, b.title, b.role).Some? {
      ClashIff(lib, d, a.title, a.role, b.title, b.role);
      NeverInside(lib, d, a.title, a.role, b.title, b.role);
      NeverInside(lib, d, b.title, b.role, a.title, a.role);
    }
  }

  lemma ItemOk(lib: Path, d: Confirmed, i: Item)
    requires i.guess.Some? ==> !Under(lib, i.guess.value)
    ensures SlotOk(lib, SlotOf(lib, d, i))
  {
    if Destination(lib, d, i.title, i.role).Some? {
      Shape(lib, d, i.title, i.role);
    }
  }

  /** A disc's titles go to different places exactly when no two of them are given one. */
  lemma PlanOkIff(lib: Path, d: Confirmed, items: seq<Item>, showText: string)
    requires Catalogued(lib, items)
    ensures PlanOk(lib, PlanOf(lib, d, items, showText).slots) <==> NoClash(lib, d, items)
  {
    var slots := PlanOf(lib, d, items, showText).slots;
    forall i | 0 <= i < |items| ensures SlotOk(lib, slots[i]) {
      ItemOk(lib, d, items[i]);
    }
    forall i, j | 0 <= i < j < |items|
      ensures Apart(slots[i], slots[j]) == Apart(slots[j], slots[i])
      ensures Apart(slots[i], slots[j]) <==>
        (Destination(lib, d, items[i].title, items[i].role).Some?
            && Destination(lib, d, items[j].title, items[j].role).Some?
         ==> !SamePlace(d, items[i].title, items[i].role, items[j].title, items[j].role)) {
      PairApart(lib, d, items[i], items[j]);
    }
  }

  lemma ShowIsApart(lib: Path, d: Confirmed, t: Title, role: Role)
    requires Destination(lib, d, t, role).Some?
    ensures var p, show := Destination(lib, d, t, role).value, SeriesDir(lib, d) + ["tvshow.nfo"];
      Sidecar(p) != show && show !in Ancestors(p)
  {
    Shape(lib, d, t, role);
    var p, show, n := Destination(lib, d, t, role).value, SeriesDir(lib, d) + ["tvshow.nfo"], |lib|;
    SidecarApart(p, p);
    assert show[n] == "TV" && show[n + 2] == "tvshow.nfo";
    if role == Feature {
      assert Sidecar(p)[..|p| - 1][n] == p[..|p| - 1][n];
    }
    if show in Ancestors(p) {
      var k :| 0 < k < |p| && show == p[..k];
      assert show[n + 2] == p[n + 2];
      SeasonIsNotExtras(if role == Episode then SeasonOf(d, t).value else 0);
      assert false;
    }
  }

  lemma FileableIff(lib: Path, d: Confirmed, items: seq<Item>, showText: string)
    requires Catalogued(lib, items)
    ensures Fileable(lib, PlanOf(lib, d, items, showText)) <==> NoClash(lib, d, items)
  {
    PlanOkIff(lib, d, items, showText);
    var plan := PlanOf(lib, d, items, showText);
    assert plan.show[..|lib|] == lib && plan.show[|plan.show| - 1] == "tvshow.nfo";
    assert "tvshow.nfo"[6..] == ".nfo";
    forall i | 0 <= i < |items| && plan.slots[i].dest.Some?
      ensures Sidecar(plan.slots[i].dest.value) != plan.show && plan.show !in Ancestors(plan.slots[i].dest.value) {
      ShowIsApart(lib, d, items[i].title, items[i].role);
    }
  }

  /** So a confirmed disc whose titles have names of their own reaches one final state, whatever
      the order in which its encodes finish and filing runs, if no encode replaces a file a
      title was linked from and the run after them all does not raise; and, when none was
      linked to begin with, only if none does. */
  lemma ConfirmedDiscConverges(lib: Path, st: State, d: Confirmed, items: seq<Item>, showText: string,
      acts: seq<C.Step>)
    requires Catalogued(lib, items) && NoClash(lib, d, items) && CoreOk(lib, st.core)
    requires var plan := PlanOf(lib, d, items, showText);
      C.Fresh(lib, st, plan, acts) && !Sweep(C.Encodes(lib, st.core, acts), plan.slots).raised
    ensures var plan := PlanOf(lib, d, items, showText);
      var same := Run(C.Exec(lib, st, plan, acts), plan) == Run(State(C.Encodes(lib, st.core, acts), st.filed), plan);
      && (C.Settled(lib, st, plan, acts) ==> same)
      && (C.NoneLinked(st.core, plan.slots) && same ==> C.Settled(lib, st, plan, acts))
  {
    FileableIff(lib, d, items, showText);
    var plan := PlanOf(lib, d, items, showText);
    if C.Settled(lib, st, plan, acts) {
      C.FilingIsConfluent(lib, st, plan, acts);
    } else if C.NoneLinked(st.core, plan.slots) {
      C.ConfluentIff(lib, st, plan, acts);
    }
  }

  /** Two titles sent to one free path: whichever is filed first keeps it, the other is
      reported as a conflict, so the order of filing shows. */
  lemma FirstComeKeeps(lib: Path, c: Core, s: Slot, t: Slot, p: Path)
    requires CoreOk(lib, c) && SlotOk(lib, s) && SlotOk(lib, t) && s.title != t.title
    requires s.dest == Some(p) && t.dest == Some(p) && !Exists(c, p)
    requires Judge(c, s).Linked? && Judge(c, t).Linked? && Judge(c, s).inode != Judge(c, t).inode
    ensures Judge(Place(c, s), t).Conflict? && Judge(Place(c, t), s).Conflict?
    ensures Place(Place(c, s), t).links != Place(Place(c, t), s).links
  {
    ThenConflicts(lib, c, s, t, p);
    ThenConflicts(lib, c, t, s, p);
    assert Place(Place(c, s), t).links[p] != Place(Place(c, t), s).links[p];
  }

  lemma ThenConflicts(lib: Path, c: Core, s: Slot, t: Slot, p: Path)
    requires CoreOk(lib, c) && SlotOk(lib, s) && SlotOk(lib, t) && s.title != t.title
    requires s.dest == Some(p) && t.dest == Some(p) && !Exists(c, p)
    requires Judge(c, s).Linked? && Judge(c, t).Linked? && Judge(c, s).inode != Judge(c, t).inode
    ensures Judge(Place(c, s), t).Conflict?
    ensures p in Place(Place(c, s), t).links && Place(Place(c, s), t).links[p] == Judge(c, s).inode
  {
    var after := Place(c, s);
    assert after.links == c.links[p := Judge(c, s).inode];
    assert Source(after, t) == Source(c, t);
    assert Place(after, t).links == after.links;
  }
}
