/** The value list of a MakeMKV robot-mode line. */
module Robot {
  import opened Text

  const Q: char := '\"'
  const B: char := '\\'

  /** What is left to read decides what comes of the field in `buf`: this is the loop, from
      any point on. */
  function Scan(s: string, inQ: bool, buf: string): seq<string>
    decreases |s|
  {
    if s == "" then [buf]
    else if s[0] == Q then
      if inQ && |s| > 1 && s[1] == Q then Scan(s[2..], inQ, buf + [Q]) else Scan(s[1..], !inQ, buf)
    else if s[0] == B && inQ && |s| > 1 && s[1] == Q then Scan(s[2..], inQ, buf + [Q])
    else if s[0] == ',' && !inQ then [buf] + Scan(s[1..], inQ, "")
    else Scan(s[1..], inQ, buf + [s[0]])
  }

  method SplitFields(s: string) returns (fields: seq<string>)
    ensures fields == Scan(s, false, "")
  {
    fields := [];
    var buf, inQ, i := "", false, 0;
    assert s[0..] == s;
    while i < |s|
      invariant 0 <= i <= |s|
      invariant fields + Scan(s[i..], inQ, buf) == Scan(s, false, "")
    {
      var c := s[i];
      ghost var rest := s[i..];
      assert rest[0] == c && rest[1..] == s[i + 1..];
      assert i + 1 < |s| ==> rest[1] == s[i + 1] && rest[2..] == s[i + 2..];
      if c == Q {
        if inQ && i + 1 < |s| && s[i + 1] == Q {
          buf := buf + [Q];
          i := i + 1;
        } else {
          inQ := !inQ;
        }
      } else if c == B && inQ && i + 1 < |s| && s[i + 1] == Q {
        buf := buf + [Q];
        i := i + 1;
      } else if c == ',' && !inQ {
        assert fields + ([buf] + Scan(rest[1..], inQ, "")) == fields + [buf] + Scan(rest[1..], inQ, "");
        fields := fields + [buf];
        buf := "";
      } else {
        buf := buf + [c];
      }
      i := i + 1;
    }
    assert s[i..] == "";
    fields := fields + [buf];
  }

  // ---------- the writer MakeMKV documents ----------

  function Doubled(f: string): string {
    if f == "" then "" else (if f[0] == Q then [Q, Q] else [f[0]]) + Doubled(f[1..])
  }

  function Quoted(f: string): string { [Q] + Doubled(f) + [Q] }

  /** Texts are written in quotes, numbers bare. */
  datatype Field = Bare(text: string) | InQuotes(text: string)

  function FieldText(f: Field): string { if f.Bare? then f.text else Quoted(f.text) }

  ghost predicate Writable(fs: seq<Field>) {
    fs != [] && forall f :: f in fs && f.Bare? ==> Q !in f.text && ',' !in f.text
  }

  function Joined(fs: seq<Field>): string
    requires fs != []
  {
    if |fs| == 1 then FieldText(fs[0]) else FieldText(fs[0]) + "," + Joined(fs[1..])
  }

  function Texts(fs: seq<Field>): seq<string> { seq(|fs|, i requires 0 <= i < |fs| => fs[i].text) }

  /** A backslash directly before a quote, or at the end and so before the closing quote. */
  predicate Ambiguous(f: string) {
    f != "" && ((f[0] == B && (|f| == 1 || f[1] == Q)) || Ambiguous(f[1..]))
  }

  /** Inside quotes, the text of a field is read back character by character. */
  lemma {:induction false} ScanDoubled(f: string, rest: string, buf: string)
    requires !Ambiguous(f) && (rest == "" || rest[0] != Q)
    ensures Scan(Doubled(f) + [Q] + rest, true, buf) == Scan(rest, false, buf + f)
    decreases |f|
  {
    var s := Doubled(f) + [Q] + rest;
    if f == "" {
      assert s == [Q] + rest && s[1..] == rest;
      assert buf + f == buf;
    } else {
      var more := Doubled(f[1..]) + [Q] + rest;
      ScanDoubled(f[1..], rest, buf + [f[0]]);
      assert buf + [f[0]] + f[1..] == buf + f;
      if f[0] == Q {
        assert s == [Q, Q] + more && s[2..] == more;
      } else {
        assert s == [f[0]] + more && s[1..] == more;
        DoubledStarts(f[1..], rest);
      }
    }
  }

  lemma DoubledStarts(f: string, rest: string)
    ensures var more := Doubled(f) + [Q] + rest; more[0] == if f == "" then Q else f[0]
  {
  }

  /** Outside quotes every character but a comma or a quote stands for itself. */
  lemma {:induction false} ScanBare(f: string, rest: string, buf: string)
    requires Q !in f && ',' !in f
    ensures Scan(f + rest, false, buf) == Scan(rest, false, buf + f)
    decreases |f|
  {
    if f == "" {
      assert f + rest == rest && buf + f == buf;
    } else {
      assert f[0] in f && (f + rest)[1..] == f[1..] + rest;
      ScanBare(f[1..], rest, buf + [f[0]]);
      assert buf + [f[0]] + f[1..] == buf + f;
    }
  }

  /** A backslash that is not in quotes is never taken for an escape. */
  predicate AmbiguousField(f: Field) { f.InQuotes? && Ambiguous(f.text) }

  function After(fs: seq<Field>): string
    requires fs != []
  {
    if |fs| == 1 then "" else "," + Joined(fs[1..])
  }

  lemma JoinedSplits(fs: seq<Field>)
    requires fs != []
    ensures Joined(fs) == FieldText(fs[0]) + After(fs) && (After(fs) == "" || After(fs)[0] == ',')
    ensures |fs| > 1 ==> After(fs)[1..] == Joined(fs[1..])
  {
    assert Joined(fs) == FieldText(fs[0]) + After(fs);
  }

  lemma ScanField(f: Field, rest: string)
    requires (f.Bare? ==> Q !in f.text && ',' !in f.text) && !AmbiguousField(f) && (rest == "" || rest[0] == ',')
    ensures Scan(FieldText(f) + rest, false, "") == Scan(rest, false, f.text)
  {
    assert "" + f.text == f.text;
    if f.Bare? {
      ScanBare(f.text, rest, "");
    } else {
      ScanQuoted(f.text, rest);
      ScanDoubled(f.text, rest, "");
    }
  }

  lemma ScanQuoted(f: string, rest: string)
    ensures Scan(Quoted(f) + rest, false, "") == Scan(Doubled(f) + [Q] + rest, true, "")
  {
    assert (Quoted(f) + rest)[1..] == Doubled(f) + [Q] + rest;
  }

  lemma TextsSplit(fs: seq<Field>)
    requires fs != []
    ensures Texts(fs) == [fs[0].text] + Texts(fs[1..])
  {
  }

  /** Writing, joining and splitting is the identity on fields without such backslashes. */
  lemma {:induction false} SplitJoined(fs: seq<Field>)
    requires Writable(fs) && forall f :: f in fs ==> !AmbiguousField(f)
    ensures Scan(Joined(fs), false, "") == Texts(fs)
  {
    assert fs[0] in fs;
    JoinedSplits(fs);
    TextsSplit(fs);
    ScanField(fs[0], After(fs));
    if |fs| > 1 {
      SplitJoined(fs[1..]);
    }
  }

  // ---------- and on no others ----------

  function Backslashes(s: string): nat {
    if s == "" then 0 else (if s[0] == B then 1 else 0) + Backslashes(s[1..])
  }

  function AllBackslashes(fs: seq<string>): nat {
    if fs == [] then 0 else Backslashes(fs[0]) + AllBackslashes(fs[1..])
  }

  lemma {:induction false} BackslashesAppend(a: string, b: string)
    ensures Backslashes(a + b) == Backslashes(a) + Backslashes(b)
  {
    if a == "" {
      assert a + b == b;
    } else {
      BackslashesAppend(a[1..], b);
      assert (a + b)[1..] == a[1..] + b;
    }
  }

  /** Reading never makes a backslash up. */
  lemma {:induction false} ScanLoses(s: string, inQ: bool, buf: string)
    ensures AllBackslashes(Scan(s, inQ, buf)) <= Backslashes(buf) + Backslashes(s)
    decreases |s|
  {
    if s == "" {
      assert Scan(s, inQ, buf)[1..] == [];
    } else if s[0] == Q || (s[0] == B && inQ && |s| > 1 && s[1] == Q) {
      if inQ && |s| > 1 && s[1] == Q {
        ScanLoses(s[2..], inQ, buf + [Q]);
        BackslashesAppend(buf, [Q]);
        assert s[1..][1..] == s[2..];
        assert Backslashes([Q]) == 0 + Backslashes([Q][1..]);
      } else {
        ScanLoses(s[1..], !inQ, buf);
      }
    } else if s[0] == ',' && !inQ {
      ScanLoses(s[1..], inQ, "");
      assert ([buf] + Scan(s[1..], inQ, ""))[1..] == Scan(s[1..], inQ, "");
    } else {
      ScanLoses(s[1..], inQ, buf + [s[0]]);
      BackslashesAppend(buf, [s[0]]);
      assert [s[0]][1..] == "";
    }
  }

  /** A backslash before a quote is taken for an escape, so one is lost. */
  lemma {:induction false} AmbiguousLoses(f: string, rest: string, buf: string)
    requires Ambiguous(f) && (rest == "" || rest[0] != Q)
    ensures AllBackslashes(Scan(Doubled(f) + [Q] + rest, true, buf))
      < Backslashes(buf) + Backslashes(f) + Backslashes(rest)
    decreases |f|
  {
    var s := Doubled(f) + [Q] + rest;
    var more := Doubled(f[1..]) + [Q] + rest;
    if f[0] == Q {
      assert s == [Q, Q] + more && s[2..] == more;
      AmbiguousLoses(f[1..], rest, buf + [Q]);
      BackslashesAppend(buf, [Q]);
      assert [Q][1..] == "";
    } else {
      assert s == [f[0]] + more && s[1..] == more;
      DoubledStarts(f[1..], rest);
      if f[0] == B && (|f| == 1 || f[1] == Q) {
        assert more[0] == Q;
        EscapeLoses(s, buf);
        DoubledBackslashes(f[1..], rest);
      } else {
        AmbiguousLoses(f[1..], rest, buf + [f[0]]);
        BackslashesAppend(buf, [f[0]]);
        assert [f[0]][1..] == "";
      }
    }
  }

  lemma EscapeLoses(s: string, buf: string)
    requires |s| > 1 && s[0] == B && s[1] == Q
    ensures AllBackslashes(Scan(s, true, buf)) <= Backslashes(buf) + Backslashes(s[1..])
  {
    ScanLoses(s[2..], true, buf + [Q]);
    BackslashesAppend(buf, [Q]);
    assert [Q][1..] == "" && s[1..][1..] == s[2..];
  }

  lemma {:induction false} DoubledBackslashes(f: string, rest: string)
    ensures Backslashes(Doubled(f) + [Q] + rest) == Backslashes(f) + Backslashes(rest)
  {
    var s := Doubled(f) + [Q] + rest;
    if f == "" {
      assert s == [Q] + rest && s[1..] == rest;
    } else {
      DoubledBackslashes(f[1..], rest);
      var more := Doubled(f[1..]) + [Q] + rest;
      if f[0] == Q {
        assert s == [Q, Q] + more && s[1..] == [Q] + more && s[1..][1..] == more;
      } else {
        assert s == [f[0]] + more && s[1..] == more;
      }
    }
  }

  lemma FieldBackslashes(f: Field, rest: string)
    ensures Backslashes(FieldText(f) + rest) == Backslashes(f.text) + Backslashes(rest)
  {
    if f.Bare? {
      BackslashesAppend(f.text, rest);
    } else {
      assert (Quoted(f.text) + rest)[1..] == Doubled(f.text) + [Q] + rest;
      DoubledBackslashes(f.text, rest);
    }
  }

  lemma {:induction false} JoinedBackslashes(fs: seq<Field>)
    requires fs != []
    ensures Backslashes(Joined(fs)) == AllBackslashes(Texts(fs))
  {
    JoinedSplits(fs);
    TextsSplit(fs);
    FieldBackslashes(fs[0], After(fs));
    assert ([fs[0].text] + Texts(fs[1..]))[1..] == Texts(fs[1..]);
    if |fs| > 1 {
      JoinedBackslashes(fs[1..]);
    }
  }

  lemma {:induction false} AmbiguousListLoses(fs: seq<Field>)
    requires Writable(fs) && exists f :: f in fs && AmbiguousField(f)
    ensures AllBackslashes(Scan(Joined(fs), false, "")) < AllBackslashes(Texts(fs))
  {
    var f, rest := fs[0], After(fs);
    assert f in fs;
    JoinedSplits(fs);
    TextsSplit(fs);
    assert ([f.text] + Texts(fs[1..]))[1..] == Texts(fs[1..]);
    if |fs| > 1 {
      JoinedBackslashes(fs[1..]);
    }
    if AmbiguousField(f) {
      ScanQuoted(f.text, rest);
      AmbiguousLoses(f.text, rest, "");
    } else {
      ScanField(f, rest);
      var g :| g in fs && AmbiguousField(g);
      assert g in fs[1..];
      AmbiguousListLoses(fs[1..]);
      assert ([f.text] + Scan(rest[1..], false, ""))[1..] == Scan(rest[1..], false, "");
    }
  }

  /** The fields of a line, quoted texts and bare numbers mixed, come back as they were written if
      and only if none in quotes has a backslash directly before a quote or at its end. */
  lemma SplitJoinedIff(fs: seq<Field>)
    requires Writable(fs)
    ensures Scan(Joined(fs), false, "") == Texts(fs) <==> forall f :: f in fs ==> !AmbiguousField(f)
  {
    if forall f :: f in fs ==> !AmbiguousField(f) {
      SplitJoined(fs);
    } else {
      AmbiguousListLoses(fs);
    }
  }
}
