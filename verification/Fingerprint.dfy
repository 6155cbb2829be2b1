/** The text a disc's fingerprint is the hash of, and the playlists of a Blu-ray worth keeping. */
module Fingerprint {
  import opened Text
  import opened Sorting

  const NUL: char := '\0'

  // ---------- the fingerprint ----------

  datatype Entry = Entry(dur: int, size: int)

  function EntryLeq(): (Entry, Entry) -> bool {
    (a: Entry, b: Entry) => a.dur < b.dur || (a.dur == b.dur && a.size <= b.size)
  }

  function TrimSpace(s: string): (r: string)
    ensures forall c :: c in r ==> c in s
  {
    if s == "" then ""
    else if IsSpace(s[0]) then TrimSpace(s[1..])
    else if IsSpace(s[|s| - 1]) then TrimSpace(s[..|s| - 1])
    else s
  }

  /** Trimming takes the white space off both ends, and nothing else. */
  lemma {:induction false} TrimSpaceIs(s: string) returns (i: nat, j: nat)
    ensures i <= j <= |s| && TrimSpace(s) == s[i..j] && Blank(s[..i]) && Blank(s[j..])
    ensures i < j ==> !IsSpace(s[i]) && !IsSpace(s[j - 1])
    decreases |s|
  {
    if s == "" {
      i, j := 0, 0;
    } else if IsSpace(s[0]) {
      i, j := TrimSpaceIs(s[1..]);
      MovedRight(s, i, j);
      i, j := i + 1, j + 1;
    } else if IsSpace(s[|s| - 1]) {
      i, j := TrimSpaceIs(s[..|s| - 1]);
      OneMoreRight(s, i, j);
    } else {
      i, j := 0, |s|;
    }
  }

  lemma MovedRight(s: string, i: nat, j: nat)
    requires s != "" && IsSpace(s[0]) && i <= j < |s| && Blank(s[1..][..i]) && Blank(s[1..][j..])
    ensures Blank(s[..i + 1]) && Blank(s[j + 1..]) && s[1..][i..j] == s[i + 1..j + 1]
  {
    assert s[..i + 1] == [s[0]] + s[1..][..i];
    assert s[j + 1..] == s[1..][j..];
  }

  lemma OneMoreRight(s: string, i: nat, j: nat)
    requires s != "" && IsSpace(s[|s| - 1]) && i <= j < |s|
    requires var front := s[..|s| - 1]; Blank(front[..i]) && Blank(front[j..])
    ensures Blank(s[..i]) && Blank(s[j..]) && s[..|s| - 1][i..j] == s[i..j]
  {
    var front := s[..|s| - 1];
    assert s[..i] == front[..i];
    assert s[j..] == front[j..] + [s[|s| - 1]];
  }

  function EntryText(e: Entry): string {
    Int(e.dur) + ":" + Int(e.size) + [NUL]
  }

  function Written<T>(s: seq<T>, text: T -> string): string {
    if s == [] then "" else text(s[0]) + Written(s[1..], text)
  }

  function EntriesText(es: seq<Entry>): string { Written(es, EntryText) }

  /** What is hashed: the trimmed label, the number of titles, and the sorted entries. */
  function HashInput(volume: string, es: seq<Entry>): string {
    TrimSpace(volume) + [NUL] + (Nat(|es|) + [NUL] + EntriesText(Sort(es, EntryLeq())))
  }

  lemma EntryOrder()
    ensures Order(EntryLeq())
  {
  }

  lemma EntriesTextNonempty(a: seq<Entry>)
    ensures a != [] ==> EntriesText(a) != ""
  {
    if a != [] {
      assert |EntriesText(a)| >= |EntryText(a[0])| > 0;
    }
  }

  lemma {:induction false} EntriesTextInjective(a: seq<Entry>, b: seq<Entry>)
    requires EntriesText(a) == EntriesText(b)
    ensures a == b
  {
    EntriesTextNonempty(a);
    EntriesTextNonempty(b);
    if a != [] && b != [] {
      EntryTextSplits(a[0], b[0], EntriesText(a[1..]), EntriesText(b[1..]));
      EntriesTextInjective(a[1..], b[1..]);
      SameHeadAndTail(a, b);
    }
  }

  lemma SameHeadAndTail(a: seq<Entry>, b: seq<Entry>)
    requires a != [] && b != [] && a[0] == b[0] && a[1..] == b[1..]
    ensures a == b
  {
    assert a == [a[0]] + a[1..] && b == [b[0]] + b[1..];
  }

  lemma EntryTextSplits(a: Entry, b: Entry, x: string, y: string)
    requires EntryText(a) + x == EntryText(b) + y
    ensures a == b && x == y
  {
    var ka, kb := Int(a.dur) + ":" + Int(a.size), Int(b.dur) + ":" + Int(b.size);
    IntAvoids(a.dur, NUL); IntAvoids(a.size, NUL);
    IntAvoids(b.dur, NUL); IntAvoids(b.size, NUL);
    assert ka + [NUL] + x == EntryText(a) + x && kb + [NUL] + y == EntryText(b) + y;
    SeparatorSplits(ka, kb, NUL, x, y);
    IntAvoids(a.dur, ':'); IntAvoids(b.dur, ':');
    SeparatorSplits(Int(a.dur), Int(b.dur), ':', Int(a.size), Int(b.size));
    IntInjective(a.dur, b.dur);
    IntInjective(a.size, b.size);
  }

  lemma EntriesSorted(s: seq<Entry>)
    ensures SortedBy(Sort(s, EntryLeq()), EntryLeq()) && multiset(Sort(s, EntryLeq())) == multiset(s)
  {
    EntryOrder();
    SortSorts(s, EntryLeq());
  }

  lemma EntryInsertSorts(e: Entry, s: seq<Entry>)
    requires SortedBy(s, EntryLeq())
    ensures SortedBy(Insert(e, s, EntryLeq()), EntryLeq())
    ensures multiset(Insert(e, s, EntryLeq())) == multiset(s) + multiset{e}
  {
    EntryOrder();
    InsertSorts(e, s, EntryLeq());
    InsertPermutes(e, s, EntryLeq());
  }

  lemma SortedEntriesUnique(a: seq<Entry>, b: seq<Entry>)
    requires SortedBy(a, EntryLeq()) && SortedBy(b, EntryLeq()) && multiset(a) == multiset(b)
    ensures a == b
  {
    var leq := EntryLeq();
    assert forall x: Entry, y: Entry :: leq(x, y) && leq(y, x) ==> x == y;
    SortedUnique(a, b, leq);
  }

  lemma SortDeterminedBy(a: seq<Entry>, b: seq<Entry>)
    ensures multiset(a) == multiset(b) <==> Sort(a, EntryLeq()) == Sort(b, EntryLeq())
  {
    EntriesSorted(a);
    EntriesSorted(b);
    if multiset(a) == multiset(b) {
      SortedEntriesUnique(Sort(a, EntryLeq()), Sort(b, EntryLeq()));
    }
  }

  /** Two discs hash the same text exactly when their trimmed labels agree and they hold the
      same titles, whatever order they were enumerated in. */
  lemma FingerprintIff(la: string, a: seq<Entry>, lb: string, b: seq<Entry>)
    requires NUL !in la && NUL !in lb
    ensures HashInput(la, a) == HashInput(lb, b) <==> TrimSpace(la) == TrimSpace(lb) && multiset(a) == multiset(b)
  {
    var ea, eb := EntriesText(Sort(a, EntryLeq())), EntriesText(Sort(b, EntryLeq()));
    SortDeterminedBy(a, b);
    if HashInput(la, a) == HashInput(lb, b) {
      SeparatorSplits(TrimSpace(la), TrimSpace(lb), NUL, Nat(|a|) + [NUL] + ea, Nat(|b|) + [NUL] + eb);
      NatRoundTrip(|a|);
      NatRoundTrip(|b|);
      SeparatorSplits(Nat(|a|), Nat(|b|), NUL, ea, eb);
      EntriesTextInjective(Sort(a, EntryLeq()), Sort(b, EntryLeq()));
    } else if multiset(a) == multiset(b) {
      assert |a| == |multiset(a)| == |multiset(b)| == |b|;
    }
  }

  lemma {:induction false} WrittenSnoc<T>(s: seq<T>, x: T, text: T -> string)
    ensures Written(s + [x], text) == Written(s, text) + text(x)
  {
    if s == [] {
      assert s + [x] == [x] && [x][1..] == [];
      assert text(x) + "" == "" + text(x);
    } else {
      WrittenSnoc(s[1..], x, text);
      assert (s + [x])[0] == s[0] && (s + [x])[1..] == s[1..] + [x];
      Reassociate(text(s[0]), Written(s[1..], text), text(x));
    }
  }

  method SortEntries(titles: seq<Entry>) returns (entries: seq<Entry>)
    ensures entries == Sort(titles, EntryLeq()) && |entries| == |titles|
  {
    entries := [];
    for i := 0 to |titles|
      invariant SortedBy(entries, EntryLeq()) && multiset(entries) == multiset(titles[..i])
    {
      EntryInsertSorts(titles[i], entries);
      assert titles[..i + 1] == titles[..i] + [titles[i]];
      entries := Insert(titles[i], entries, EntryLeq());
    }
    assert titles[..|titles|] == titles;
    EntriesSorted(titles);
    SortedEntriesUnique(entries, Sort(titles, EntryLeq()));
    assert |multiset(entries)| == |multiset(titles)|;
  }

  method WriteAll<T>(items: seq<T>, text: T -> string) returns (body: string)
    ensures body == Written(items, text)
  {
    body := "";
    for i := 0 to |items|
      invariant body == Written(items[..i], text)
    {
      WrittenSnoc(items[..i], items[i], text);
      assert items[..i + 1] == items[..i] + [items[i]];
      body := body + text(items[i]);
    }
    assert items[..|items|] == items;
  }

  /** Sorting the entries one insertion at a time and writing them out as they come. */
  method ComputeHashInput(volume: string, titles: seq<Entry>) returns (text: string)
    ensures text == HashInput(volume, titles)
  {
    var entries := SortEntries(titles);
    var body := WriteAll(entries, EntryText);
    text := TrimSpace(volume) + [NUL] + (Nat(|titles|) + [NUL] + body);
  }

  // ---------- Blu-ray playlists ----------

  datatype Playlist = Playlist(file: string, secs: int, chapters: int, video: int, audio: int, subtitles: int)

  const MIN_REAL_SECS := 60

  /** Lexicographic order on file names. */
  predicate StringLeq(a: string, b: string) {
    a == "" || (b != "" && (a[0] < b[0] || (a[0] == b[0] && StringLeq(a[1..], b[1..]))))
  }

  lemma {:induction false} StringLeqTotal(a: string, b: string)
    ensures StringLeq(a, b) || StringLeq(b, a)
    ensures StringLeq(a, b) && StringLeq(b, a) ==> a == b
  {
    if a != "" && b != "" && a[0] == b[0] {
      StringLeqTotal(a[1..], b[1..]);
      assert a == [a[0]] + a[1..] && b == [b[0]] + b[1..];
    }
  }

  lemma {:induction false} StringLeqTransitive(a: string, b: string, c: string)
    requires StringLeq(a, b) && StringLeq(b, c)
    ensures StringLeq(a, c)
  {
    if a != "" && a[0] == b[0] == c[0] {
      StringLeqTransitive(a[1..], b[1..], c[1..]);
    }
  }

  function FileLeq(): (Playlist, Playlist) -> bool {
    (p: Playlist, q: Playlist) => StringLeq(p.file, q.file)
  }

  predicate Real(p: Playlist, minSecs: int) { p.secs >= minSecs && p.audio >= 1 }

  function Keep(ps: seq<Playlist>, minSecs: int): seq<Playlist> {
    if ps == [] then []
    else Keep(ps[..|ps| - 1], minSecs) + if Real(ps[|ps| - 1], minSecs) then [ps[|ps| - 1]] else []
  }

  /** The text by which two playlists count as the same content. */
  function ContentKey(p: Playlist): string {
    Int(p.secs) + "|" + (Int(p.chapters) + "|" + (Int(p.video) + "|" + (Int(p.audio) + "|" + Int(p.subtitles))))
  }

  predicate SameContent(p: Playlist, q: Playlist) {
    p.secs == q.secs && p.chapters == q.chapters && p.video == q.video && p.audio == q.audio
        && p.subtitles == q.subtitles
  }

  /** The key tells playlists apart exactly when their running time or streams differ. */
  lemma ContentKeyIff(p: Playlist, q: Playlist)
    ensures ContentKey(p) == ContentKey(q) <==> SameContent(p, q)
  {
    if ContentKey(p) == ContentKey(q) {
      var p4, q4 := Int(p.audio) + "|" + Int(p.subtitles), Int(q.audio) + "|" + Int(q.subtitles);
      var p3, q3 := Int(p.video) + "|" + p4, Int(q.video) + "|" + q4;
      var p2, q2 := Int(p.chapters) + "|" + p3, Int(q.chapters) + "|" + q3;
      FieldSplits(p.secs, q.secs, p2, q2);
      FieldSplits(p.chapters, q.chapters, p3, q3);
      FieldSplits(p.video, q.video, p4, q4);
      FieldSplits(p.audio, q.audio, Int(p.subtitles), Int(q.subtitles));
      IntInjective(p.subtitles, q.subtitles);
    }
  }

  lemma FieldSplits(m: int, n: int, x: string, y: string)
    requires Int(m) + "|" + x == Int(n) + "|" + y
    ensures m == n && x == y
  {
    IntAvoids(m, '|');
    IntAvoids(n, '|');
    SeparatorSplits(Int(m), Int(n), '|', x, y);
    IntInjective(m, n);
  }

  function Keys<T>(ps: seq<T>, key: T -> string): set<string> {
    set i | 0 <= i < |ps| :: key(ps[i])
  }

  /** The first element of each key, in order. */
  function Dedupe<T>(ps: seq<T>, key: T -> string): seq<T> {
    if ps == [] then []
    else
      var n := |ps|;
      Dedupe(ps[..n - 1], key) + if key(ps[n - 1]) in Keys(ps[..n - 1], key) then [] else [ps[n - 1]]
  }

  lemma KeysSnoc<T>(ps: seq<T>, p: T, key: T -> string)
    ensures Keys(ps + [p], key) == Keys(ps, key) + {key(p)}
  {
    var all := ps + [p];
    forall k | k in Keys(ps, key) ensures k in Keys(all, key) {
      var i :| 0 <= i < |ps| && key(ps[i]) == k;
      assert all[i] == ps[i];
    }
    assert all[|ps|] == p;
  }

  function Content(ps: seq<Playlist>, minSecs: int): seq<Playlist> {
    Dedupe(Sort(Keep(ps, if minSecs <= 0 then MIN_REAL_SECS else minSecs), FileLeq()), ContentKey)
  }

  lemma PlaylistOrder()
    ensures Order(FileLeq())
  {
    forall p: Playlist, q: Playlist ensures FileLeq()(p, q) || FileLeq()(q, p) {
      StringLeqTotal(p.file, q.file);
    }
    forall p: Playlist, q: Playlist, r: Playlist | FileLeq()(p, q) && FileLeq()(q, r) ensures FileLeq()(p, r) {
      StringLeqTransitive(p.file, q.file, r.file);
    }
  }

  /** What survives the filter, as a multiset, depends on the playlists as a multiset. */
  lemma {:induction false} KeepCounts(ps: seq<Playlist>, minSecs: int, p: Playlist)
    ensures multiset(Keep(ps, minSecs))[p] == if Real(p, minSecs) then multiset(ps)[p] else 0
  {
    if ps != [] {
      var n := |ps|;
      KeepCounts(ps[..n - 1], minSecs, p);
      assert ps == ps[..n - 1] + [ps[n - 1]];
      assert multiset(ps)[p] == multiset(ps[..n - 1])[p] + if ps[n - 1] == p then 1 else 0;
    }
  }

  lemma KeepPermutes(ps: seq<Playlist>, qs: seq<Playlist>, minSecs: int)
    requires multiset(ps) == multiset(qs)
    ensures multiset(Keep(ps, minSecs)) == multiset(Keep(qs, minSecs))
  {
    forall p ensures multiset(Keep(ps, minSecs))[p] == multiset(Keep(qs, minSecs))[p] {
      KeepCounts(ps, minSecs, p);
      KeepCounts(qs, minSecs, p);
    }
  }

  ghost predicate DistinctFiles(ps: seq<Playlist>) {
    forall p, q :: p in ps && q in ps && p.file == q.file ==> p == q
  }

  /** With distinct playlist names, the content of a Blu-ray, and so every title number, does
      not depend on the order in which the playlists were enumerated. */
  lemma ContentIgnoresOrder(ps: seq<Playlist>, qs: seq<Playlist>, minSecs: int)
    requires multiset(ps) == multiset(qs) && DistinctFiles(ps)
    ensures Content(ps, minSecs) == Content(qs, minSecs)
  {
    var least := if minSecs <= 0 then MIN_REAL_SECS else minSecs;
    var a, b := Keep(ps, least), Keep(qs, least);
    KeepPermutes(ps, qs, least);
    PlaylistsSorted(a);
    PlaylistsSorted(b);
    var sa, sb, leq := Sort(a, FileLeq()), Sort(b, FileLeq()), FileLeq();
    forall x, y | x in sa && y in sa && leq(x, y) && leq(y, x) ensures x == y {
      StringLeqTotal(x.file, y.file);
      assert x in multiset(a) && y in multiset(a);
      KeepCounts(ps, least, x);
      KeepCounts(ps, least, y);
      assert x in multiset(ps) && y in multiset(ps);
    }
    SortedUnique(sa, sb, leq);
  }

  lemma PlaylistsSorted(s: seq<Playlist>)
    ensures SortedBy(Sort(s, FileLeq()), FileLeq()) && multiset(Sort(s, FileLeq())) == multiset(s)
  {
    PlaylistOrder();
    SortSorts(s, FileLeq());
  }

  function Map<T, V>(s: seq<T>, f: T -> V): seq<V> {
    seq(|s|, i requires 0 <= i < |s| => f(s[i]))
  }

  /** What feeds the fingerprint of a Blu-ray: content playlists report no size. */
  function ToEntry(p: Playlist): Entry { Entry(p.secs, 0) }

  lemma MapWithout<T, V>(s: seq<T>, f: T -> V, k: nat)
    requires k < |s|
    ensures multiset(Map(s, f)) == multiset(Map(s[..k] + s[k + 1..], f)) + multiset{f(s[k])}
  {
    var es := Map(s, f);
    assert es == es[..k] + [es[k]] + es[k + 1..];
    assert Map(s[..k] + s[k + 1..], f) == es[..k] + es[k + 1..];
  }

  ghost predicate DistinctKeys<T>(ps: seq<T>, key: T -> string) {
    forall i, j :: 0 <= i < j < |ps| ==> key(ps[i]) != key(ps[j])
  }

  ghost predicate KeyDecides<T, V>(ps: seq<T>, qs: seq<T>, key: T -> string, f: T -> V) {
    forall p, q :: p in ps && q in qs && key(p) == key(q) ==> f(p) == f(q)
  }

  lemma KeysNonempty<T>(ps: seq<T>, key: T -> string)
    ensures ps != [] ==> Keys(ps, key) != {}
  {
    if ps != [] {
      assert key(ps[0]) in Keys(ps, key);
    }
  }

  lemma KeysWithout<T>(ps: seq<T>, key: T -> string, k: nat)
    requires DistinctKeys(ps, key) && k < |ps|
    ensures DistinctKeys(ps[..k] + ps[k + 1..], key)
    ensures Keys(ps[..k] + ps[k + 1..], key) == Keys(ps, key) - {key(ps[k])}
  {
    var rest := ps[..k] + ps[k + 1..];
    forall i | 0 <= i < |ps| && i != k ensures key(ps[i]) in Keys(rest, key) {
      assert rest[if i < k then i else i - 1] == ps[i];
    }
    forall i | 0 <= i < |rest| ensures key(rest[i]) in Keys(ps, key) && key(rest[i]) != key(ps[k]) {
      assert rest[i] == ps[if i < k then i else i + 1];
    }
  }

  /** Lists with one element for each of the same keys agree on whatever the key decides. */
  lemma {:induction false} SameKeysSameValues<T, V>(ps: seq<T>, qs: seq<T>, key: T -> string, f: T -> V)
    requires DistinctKeys(ps, key) && DistinctKeys(qs, key) && Keys(ps, key) == Keys(qs, key)
    requires KeyDecides(ps, qs, key, f)
    ensures multiset(Map(ps, f)) == multiset(Map(qs, f))
    decreases |ps|
  {
    if ps == [] {
      KeysNonempty(qs, key);
    } else {
      assert key(ps[0]) in Keys(qs, key);
      var j :| 0 <= j < |qs| && key(qs[j]) == key(ps[0]);
      KeysWithout(ps, key, 0);
      KeysWithout(qs, key, j);
      MapWithout(ps, f, 0);
      MapWithout(qs, f, j);
      var p', q' := ps[..0] + ps[1..], qs[..j] + qs[j + 1..];
      assert forall q :: q in q' ==> q in qs;
      assert forall p :: p in p' ==> p in ps;
      SameKeysSameValues(p', q', key, f);
    }
  }

  lemma KeysOfPermutation<T>(a: seq<T>, b: seq<T>, key: T -> string)
    requires multiset(a) == multiset(b)
    ensures Keys(a, key) <= Keys(b, key)
  {
    forall i | 0 <= i < |a| ensures key(a[i]) in Keys(b, key) {
      assert a[i] in multiset(b);
      var j :| 0 <= j < |b| && b[j] == a[i];
    }
  }

  lemma DedupePermuted<T, V>(a: seq<T>, b: seq<T>, key: T -> string, f: T -> V)
    requires multiset(a) == multiset(b)
    requires KeyDecides(Dedupe(a, key), Dedupe(b, key), key, f)
    ensures multiset(Map(Dedupe(a, key), f)) == multiset(Map(Dedupe(b, key), f))
  {
    KeysOfPermutation(a, b, key);
    KeysOfPermutation(b, a, key);
    DedupeRepresents(a, key);
    DedupeRepresents(b, key);
    SameKeysSameValues(Dedupe(a, key), Dedupe(b, key), key, f);
  }

  /** A Blu-ray's fingerprint does not depend on the order in which its playlists were
      enumerated, even when playlist names repeat and the sort breaks ties differently. */
  lemma BluRayFingerprintIgnoresOrder(volume: string, ps: seq<Playlist>, qs: seq<Playlist>, minSecs: int)
    requires multiset(ps) == multiset(qs) && NUL !in volume
    ensures HashInput(volume, Map(Content(ps, minSecs), ToEntry))
        == HashInput(volume, Map(Content(qs, minSecs), ToEntry))
  {
    var least := if minSecs <= 0 then MIN_REAL_SECS else minSecs;
    KeepPermutes(ps, qs, least);
    PlaylistsSorted(Keep(ps, least));
    PlaylistsSorted(Keep(qs, least));
    KeyDecidesEntry();
    DedupePermuted(Sort(Keep(ps, least), FileLeq()), Sort(Keep(qs, least), FileLeq()), ContentKey, ToEntry);
    FingerprintIff(volume, Map(Content(ps, minSecs), ToEntry), volume, Map(Content(qs, minSecs), ToEntry));
  }

  function Secs(p: Playlist): int { p.secs }

  lemma {:induction false} EntriesCount(ps: seq<Playlist>, e: Entry)
    ensures multiset(Map(ps, ToEntry))[e] == if e.size == 0 then multiset(Map(ps, Secs))[e.dur] else 0
  {
    if ps != [] {
      MapWithout(ps, ToEntry, 0);
      MapWithout(ps, Secs, 0);
      EntriesCount(ps[..0] + ps[1..], e);
    }
  }

  lemma EntriesIff(ps: seq<Playlist>, qs: seq<Playlist>)
    ensures multiset(Map(ps, ToEntry)) == multiset(Map(qs, ToEntry)) <==>
      multiset(Map(ps, Secs)) == multiset(Map(qs, Secs))
  {
    forall e: Entry ensures multiset(Map(ps, ToEntry))[e] == if e.size == 0 then multiset(Map(ps, Secs))[e.dur] else 0 {
      EntriesCount(ps, e);
    }
    forall e: Entry ensures multiset(Map(qs, ToEntry))[e] == if e.size == 0 then multiset(Map(qs, Secs))[e.dur] else 0 {
      EntriesCount(qs, e);
    }
    if multiset(Map(ps, ToEntry)) == multiset(Map(qs, ToEntry)) {
      forall n: int ensures multiset(Map(ps, Secs))[n] == multiset(Map(qs, Secs))[n] {
        EntriesCount(ps, Entry(n, 0));
        EntriesCount(qs, Entry(n, 0));
      }
    }
  }

  /** Two Blu-rays hash the same text if and only if their trimmed labels agree and what is worth
      ripping on them runs equally long, title for title. */
  lemma BluRayFingerprintIff(la: string, ps: seq<Playlist>, lb: string, qs: seq<Playlist>, minSecs: int)
    requires NUL !in la && NUL !in lb
    ensures HashInput(la, Map(Content(ps, minSecs), ToEntry)) == HashInput(lb, Map(Content(qs, minSecs), ToEntry)) <==>
      && TrimSpace(la) == TrimSpace(lb)
      && multiset(Map(Content(ps, minSecs), Secs)) == multiset(Map(Content(qs, minSecs), Secs))
  {
    FingerprintIff(la, Map(Content(ps, minSecs), ToEntry), lb, Map(Content(qs, minSecs), ToEntry));
    EntriesIff(Content(ps, minSecs), Content(qs, minSecs));
  }

  lemma KeyDecidesEntry()
    ensures forall p, q :: ContentKey(p) == ContentKey(q) ==> ToEntry(p) == ToEntry(q)
  {
    forall p, q | ContentKey(p) == ContentKey(q) ensures ToEntry(p) == ToEntry(q) {
      ContentKeyIff(p, q);
    }
  }

  method DedupeList(ps: seq<Playlist>, key: Playlist -> string) returns (out: seq<Playlist>)
    ensures out == Dedupe(ps, key)
  {
    var seen: set<string> := {};
    out := [];
    for i := 0 to |ps|
      invariant seen == Keys(ps[..i], key) && out == Dedupe(ps[..i], key)
    {
      assert ps[..i + 1][..i] == ps[..i] && ps[..i + 1] == ps[..i] + [ps[i]];
      KeysSnoc(ps[..i], ps[i], key);
      if key(ps[i]) !in seen {
        out := out + [ps[i]];
      }
      seen := seen + {key(ps[i])};
    }
    assert ps[..|ps|] == ps;
  }

  /** Deduplicating leaves one element for every key there was, none twice. */
  lemma {:induction false} DedupeRepresents<T>(ps: seq<T>, key: T -> string)
    ensures Keys(Dedupe(ps, key), key) == Keys(ps, key)
    ensures forall i, j :: 0 <= i < j < |Dedupe(ps, key)| ==> key(Dedupe(ps, key)[i]) != key(Dedupe(ps, key)[j])
  {
    if ps != [] {
      var n := |ps|;
      var front, last := ps[..n - 1], ps[n - 1];
      DedupeRepresents(front, key);
      assert ps == front + [last];
      var d := Dedupe(front, key);
      KeysSnoc(front, last, key);
      KeysSnoc(d, last, key);
      assert d + [] == d;
      assert Keys(ps, key) == Keys(d, key) + {key(last)};
      assert forall i :: 0 <= i < |d| ==> key(d[i]) in Keys(d, key);
    }
  }

  /** What represents a key is the first element that has it. */
  lemma {:induction false} DedupeKeepsFirst<T>(ps: seq<T>, key: T -> string, k: nat) returns (j: nat)
    requires k < |ps|
    ensures j <= k && key(ps[j]) == key(ps[k]) && ps[j] in Dedupe(ps, key)
  {
    var n := |ps|;
    if k < n - 1 {
      j := DedupeKeepsFirst(ps[..n - 1], key, k);
    } else if key(ps[k]) in Keys(ps[..n - 1], key) {
      var i :| 0 <= i < n - 1 && key(ps[..n - 1][i]) == key(ps[k]);
      j := DedupeKeepsFirst(ps[..n - 1], key, i);
    } else {
      j := k;
    }
  }

  lemma DedupeLeast<T(!new)>(ps: seq<T>, key: T -> string, leq: (T, T) -> bool, p: T) returns (q: T)
    requires SortedBy(ps, leq) && p in ps && leq(p, p)
    ensures q in Dedupe(ps, key) && key(q) == key(p) && leq(q, p)
  {
    var k :| 0 <= k < |ps| && ps[k] == p;
    var j := DedupeKeepsFirst(ps, key, k);
    q := ps[j];
  }

  /** Every playlist worth ripping is represented, by exactly one with its running time and
      streams, and that one's file name is the lowest of them. */
  lemma ContentRepresents(ps: seq<Playlist>, minSecs: int, p: Playlist)
    requires p in ps && p.secs >= (if minSecs <= 0 then 60 else minSecs) && p.audio >= 1
    ensures exists q :: q in Content(ps, minSecs) && SameContent(q, p) && StringLeq(q.file, p.file)
    ensures forall i, j :: 0 <= i < j < |Content(ps, minSecs)| ==>
        !SameContent(Content(ps, minSecs)[i], Content(ps, minSecs)[j])
  {
    var least, content := if minSecs <= 0 then MIN_REAL_SECS else minSecs, Content(ps, minSecs);
    var sorted := Sort(Keep(ps, least), FileLeq());
    PlaylistsSorted(Keep(ps, least));
    KeepCounts(ps, least, p);
    assert p in multiset(ps) && p in multiset(sorted);
    StringLeqTotal(p.file, p.file);
    var q := DedupeLeast(sorted, ContentKey, FileLeq(), p);
    ContentKeyIff(q, p);
    OneOfEach(sorted);
  }

  lemma {:induction false} DedupeIsSubsequence<T(!new)>(ps: seq<T>, key: T -> string, leq: (T, T) -> bool)
    requires SortedBy(ps, leq)
    ensures SortedBy(Dedupe(ps, key), leq) && forall p :: p in Dedupe(ps, key) ==> p in ps
  {
    if ps != [] {
      var front, last := ps[..|ps| - 1], ps[|ps| - 1];
      DedupeIsSubsequence(front, key, leq);
      var d := Dedupe(front, key);
      forall i | 0 <= i < |d| ensures leq(d[i], last) {
        assert d[i] in front;
        var k :| 0 <= k < |ps| - 1 && ps[k] == d[i];
      }
    }
  }

  /** And nothing else is: all content was listed, runs long enough and can be heard, and titles
      are numbered in the order of their file names. */
  lemma ContentIsReal(ps: seq<Playlist>, minSecs: int)
    ensures var content, least := Content(ps, minSecs), if minSecs <= 0 then 60 else minSecs;
      && (forall q :: q in content ==> q in ps && q.secs >= least && q.audio >= 1)
      && forall i, j :: 0 <= i < j < |content| ==> StringLeq(content[i].file, content[j].file)
  {
    var content, least := Content(ps, minSecs), if minSecs <= 0 then MIN_REAL_SECS else minSecs;
    var kept := Keep(ps, least);
    PlaylistsSorted(kept);
    DedupeIsSubsequence(Sort(kept, FileLeq()), ContentKey, FileLeq());
    forall q | q in content ensures q in ps && q.secs >= least && q.audio >= 1 {
      assert q in multiset(Sort(kept, FileLeq()));
      KeepCounts(ps, least, q);
      assert q in multiset(ps);
    }
    assert forall i, j :: 0 <= i < j < |content| ==> FileLeq()(content[i], content[j]);
  }

  lemma OneOfEach(ps: seq<Playlist>)
    ensures var d := Dedupe(ps, ContentKey);
      forall i, j :: 0 <= i < j < |d| ==> !SameContent(d[i], d[j])
  {
    var d := Dedupe(ps, ContentKey);
    DedupeRepresents(ps, ContentKey);
    forall i, j | 0 <= i < j < |d| ensures !SameContent(d[i], d[j]) {
      ContentKeyIff(d[i], d[j]);
    }
  }
}
