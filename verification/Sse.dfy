/** Server-Sent Events between the daemon's printer and the catalog's incremental parser. */
module Sse {
  import opened Text

  const NL: char := '\n'

  // ---------- the printer ----------

  /** `id` is empty for a frame that carries none. */
  datatype Item = Frame(id: string, kind: string, body: string) | Keepalive

  function SplitLines(s: string): seq<string>
    decreases |s|
  {
    var l := Before(s, NL);
    BeforeIsPrefix(s, NL);
    if |l| == |s| then [s] else [l] + SplitLines(s[|l| + 1..])
  }

  function DataLines(parts: seq<string>): seq<string> {
    if parts == [] then [] else ["data: " + parts[0]] + DataLines(parts[1..])
  }

  function ItemLines(it: Item): seq<string> {
    match it
    case Keepalive => [": keepalive"]
    case Frame(id, kind, body) =>
      (if id == "" then [] else ["id: " + id]) + ["event: " + kind] + DataLines(SplitLines(body))
  }

  function Unlines(ls: seq<string>): string {
    if ls == [] then "" else ls[0] + [NL] + Unlines(ls[1..])
  }

  function PrintItem(it: Item): string {
    Unlines(ItemLines(it)) + [NL]
  }

  function Print(items: seq<Item>): string {
    if items == [] then "" else PrintItem(items[0]) + Print(items[1..])
  }

  // ---------- the parser ----------

  datatype Message = Message(kind: string, id: Option<string>, data: string)

  /** Where the first blank line begins, or -1. */
  function FindBreak(s: string): (r: int)
    ensures -1 <= r <= |s| - 2 || r == -1
    ensures r >= 0 ==> s[r] == NL && s[r + 1] == NL
  {
    if |s| < 2 then -1
    else if s[0] == NL && s[1] == NL then 0
    else var r := FindBreak(s[1..]); if r < 0 then -1 else r + 1
  }

  /** The finished frames of `s`. */
  function Frames(s: string): seq<string>
    decreases |s|
  {
    var i := FindBreak(s);
    if i < 0 then [] else [s[..i + 2]] + Frames(s[i + 2..])
  }

  /** What follows the last finished frame of `s`. */
  function Tail(s: string): string
    decreases |s|
  {
    var i := FindBreak(s);
    if i < 0 then s else Tail(s[i + 2..])
  }

  /** What is left of a line after `chomp` took its line ending. */
  function Chomp(l: string): string {
    if l != "" && l[|l| - 1] == '\r' then l[..|l| - 1] else l
  }

  function Lines(s: string): seq<string>
    decreases |s|
  {
    if s == "" then []
    else
      var l := Before(s, NL);
      BeforeIsPrefix(s, NL);
      if |l| == |s| then [Chomp(l)] else [Chomp(l)] + Lines(s[|l| + 1..])
  }

  /** Where the first ": " begins, or the length of the line. */
  function FindColon(l: string): (r: nat)
    ensures r <= |l|
  {
    if |l| < 2 then |l| else if l[0] == ':' && l[1] == ' ' then 0 else 1 + FindColon(l[1..])
  }

  datatype Fields = Fields(kind: Option<string>, id: Option<string>, data: string)

  function Take(acc: Fields, l: string): Fields {
    if l == "" || l[0] == ':' then acc
    else
      var c := FindColon(l);
      var key, value := l[..c], if c + 2 <= |l| then l[c + 2..] else "";
      if key == "event" then acc.(kind := Some(value))
      else if key == "id" then acc.(id := Some(value))
      else if key == "data" then acc.(data := acc.data + value)
      else acc
  }

  function TakeAll(acc: Fields, ls: seq<string>): Fields
    decreases ls
  {
    if ls == [] then acc else TakeAll(Take(acc, ls[0]), ls[1..])
  }

  function Parse(frame: string): Option<Message> {
    var f := TakeAll(Fields(None, None, ""), Lines(frame));
    if f.kind.None? then None else Some(Message(f.kind.value, f.id, f.data))
  }

  function MessageOf(frame: string): seq<Message> {
    if Parse(frame).None? then [] else [Parse(frame).value]
  }

  function Messages(frames: seq<string>): seq<Message> {
    if frames == [] then [] else MessageOf(frames[0]) + Messages(frames[1..])
  }

  lemma {:induction false} MessagesAppend(a: seq<string>, b: seq<string>)
    ensures Messages(a + b) == Messages(a) + Messages(b)
  {
    if a == [] {
      assert a + b == b;
    } else {
      MessagesAppend(a[1..], b);
      assert (a + b)[0] == a[0] && (a + b)[1..] == a[1..] + b;
      Reassociate(MessageOf(a[0]), Messages(a[1..]), Messages(b));
    }
  }

  lemma MessagesOne(f: string)
    ensures Messages([f]) == if Parse(f).None? then [] else [Parse(f).value]
  {
    assert [f][1..] == [];
  }

  // ---------- chunks do not matter ----------

  lemma {:induction false} BreakStays(a: string, b: string)
    requires FindBreak(a) >= 0
    ensures FindBreak(a + b) == FindBreak(a)
  {
    if !(a[0] == NL && a[1] == NL) {
      BreakStays(a[1..], b);
      assert (a + b)[1..] == a[1..] + b;
    }
  }

  /** Nothing is lost or invented by cutting, and the tail holds no finished frame. */
  lemma {:induction false} CutsWhole(s: string)
    ensures s == Concat(Frames(s)) + Tail(s) && FindBreak(Tail(s)) < 0
    decreases |s|
  {
    var i := FindBreak(s);
    if i >= 0 {
      CutsWhole(s[i + 2..]);
      assert s == s[..i + 2] + s[i + 2..];
    }
  }

  /** Cutting what has arrived and going on from the rest cuts the whole text. */
  lemma {:induction false} CutAppend(a: string, b: string)
    ensures Frames(a + b) == Frames(a) + Frames(Tail(a) + b)
    ensures Tail(a + b) == Tail(Tail(a) + b)
    decreases |a|
  {
    var i := FindBreak(a);
    if i >= 0 {
      BreakStays(a, b);
      var head, rest := a[..i + 2], a[i + 2..];
      CutAppend(rest, b);
      assert (a + b)[..i + 2] == head && (a + b)[i + 2..] == rest + b;
      assert Tail(a) == Tail(rest);
      Reassociate([head], Frames(rest), Frames(Tail(rest) + b));
    } else {
      assert [] + Frames(a + b) == Frames(a + b);
    }
  }

  /** Taking one finished frame off the front leaves what the text says unchanged. */
  lemma TakeFrameOff(buf: string)
    requires FindBreak(buf) >= 0
    ensures var i := FindBreak(buf);
      && Messages(Frames(buf)) == MessageOf(buf[..i + 2]) + Messages(Frames(buf[i + 2..]))
      && Tail(buf) == Tail(buf[i + 2..])
  {
    var frame, rest := buf[..FindBreak(buf) + 2], Frames(buf[FindBreak(buf) + 2..]);
    assert Frames(buf) == [frame] + rest;
    assert ([frame] + rest)[0] == frame && ([frame] + rest)[1..] == rest;
  }

  lemma FeedStep(yielded: seq<Message>, buf: string, whole: seq<Message>)
    requires FindBreak(buf) >= 0 && yielded + Messages(Frames(buf)) == whole
    ensures var i := FindBreak(buf);
      (yielded + MessageOf(buf[..i + 2])) + Messages(Frames(buf[i + 2..])) == whole && Tail(buf[i + 2..]) == Tail(buf)
  {
    var i := FindBreak(buf);
    TakeFrameOff(buf);
    Reassociate(yielded, MessageOf(buf[..i + 2]), Messages(Frames(buf[i + 2..])));
  }

  lemma FeedEnds(yielded: seq<Message>, buf: string)
    requires FindBreak(buf) < 0
    ensures yielded + Messages(Frames(buf)) == yielded && Tail(buf) == buf
  {
    assert yielded + [] == yielded;
  }

  /** What a frame yields: its message, or nothing. */
  method Yielded(frame: string) returns (ms: seq<Message>)
    ensures ms == MessageOf(frame)
  {
    var parsed := Parse(frame);
    ms := if parsed.Some? then [parsed.value] else [];
  }

  class Stream {
    var buffer: string

    constructor ()
      ensures buffer == ""
    {
      buffer := "";
    }

    /** One chunk off the wire: everything it finishes is yielded, the rest is kept. */
    method Feed(chunk: string) returns (yielded: seq<Message>)
      modifies this
      ensures yielded == Messages(Frames(old(buffer) + chunk))
      ensures buffer == Tail(old(buffer) + chunk)
    {
      buffer := buffer + chunk;
      yielded := [];
      ghost var whole := Messages(Frames(buffer));
      var i := FindBreak(buffer);
      while i >= 0
        invariant i == FindBreak(buffer)
        invariant yielded + Messages(Frames(buffer)) == whole
        invariant Tail(buffer) == Tail(old(buffer) + chunk)
        decreases |buffer|
      {
        FeedStep(yielded, buffer, whole);
        var ms := Yielded(buffer[..i + 2]);
        yielded := yielded + ms;
        buffer := buffer[i + 2..];
        i := FindBreak(buffer);
      }
      FeedEnds(yielded, buffer);
    }

    /** Reading a whole body chunk by chunk.  The buffer is at every moment exactly the
        unfinished tail of what has arrived. */
    method Each(chunks: seq<string>) returns (yielded: seq<Message>)
      requires buffer == ""
      modifies this
      ensures yielded == Messages(Frames(Concat(chunks)))
      ensures buffer == Tail(Concat(chunks))
    {
      yielded := [];
      for k := 0 to |chunks|
        invariant buffer == Tail(Concat(chunks[..k]))
        invariant yielded == Messages(Frames(Concat(chunks[..k])))
      {
        assert chunks[..k + 1] == chunks[..k] + [chunks[k]];
        ConcatAppend(chunks[..k], [chunks[k]]);
        assert Concat([chunks[k]]) == chunks[k] + "" == chunks[k];
        CutAppend(Concat(chunks[..k]), chunks[k]);
        MessagesAppend(Frames(Concat(chunks[..k])), Frames(buffer + chunks[k]));
        var more := Feed(chunks[k]);
        yielded := yielded + more;
      }
      assert chunks[..|chunks|] == chunks;
    }
  }

  // ---------- printing, then parsing ----------

  predicate OneLine(s: string) { NL !in s }

  ghost predicate Printable(ls: seq<string>) {
    forall l :: l in ls ==> l != "" && OneLine(l)
  }

  function ChompAll(ls: seq<string>): seq<string> {
    if ls == [] then [] else [Chomp(ls[0])] + ChompAll(ls[1..])
  }

  /** The body a reader ends up with: its lines run together, each less one carriage return. */
  function Flattened(body: string): string {
    Concat(ChompAll(SplitLines(body)))
  }

  /** A kind and an id never hold a line feed; a body may. */
  predicate WellFormed(it: Item) {
    it.Frame? ==> OneLine(it.id) && OneLine(it.kind)
  }

  function Received(it: Item): seq<Message> {
    match it
    case Keepalive => []
    case Frame(id, kind, body) =>
      [Message(Chomp(kind), if id == "" then None else Some(Chomp(id)), Flattened(body))]
  }

  function ReceivedAll(items: seq<Item>): seq<Message> {
    if items == [] then [] else Received(items[0]) + ReceivedAll(items[1..])
  }

  /** One line and its line feed are stepped over when the next line is not blank. */
  lemma {:induction false} BreakAfterLine(l: string, rest: string)
    requires l != "" && OneLine(l) && rest != ""
    ensures FindBreak(l + [NL] + rest) ==
      if rest[0] == NL then |l| else if FindBreak(rest) < 0 then -1 else |l| + 1 + FindBreak(rest)
  {
    var s := l + [NL] + rest;
    assert s[0] != NL;
    if |l| == 1 {
      assert s[1..] == [NL] + rest;
      assert ([NL] + rest)[1..] == rest;
    } else {
      assert s[1..] == l[1..] + [NL] + rest;
      BreakAfterLine(l[1..], rest);
    }
  }

  /** A printed item ends at its first blank line, whatever follows it. */
  lemma {:induction false} BreakAfterItem(ls: seq<string>, rest: string)
    requires ls != [] && Printable(ls)
    ensures FindBreak(Unlines(ls) + [NL] + rest) == |Unlines(ls)| - 1
  {
    var more := Unlines(ls[1..]) + [NL] + rest;
    assert ls[0] in ls;
    assert Unlines(ls) + [NL] + rest == ls[0] + [NL] + more;
    BreakAfterLine(ls[0], more);
    if |ls| > 1 {
      BreakAfterItem(ls[1..], rest);
      assert ls[1] in ls;
      assert more[0] == ls[1][0] != NL;
    }
  }

  lemma {:induction false} LinesOfUnlines(ls: seq<string>)
    requires Printable(ls)
    ensures Lines(Unlines(ls) + [NL]) == ChompAll(ls) + [""]
  {
    var s := Unlines(ls) + [NL];
    if ls == [] {
      assert s == [NL] && Before(s, NL) == "";
      assert s[1..] == "";
    } else {
      var rest := Unlines(ls[1..]) + [NL];
      assert s == ls[0] + [NL] + rest && ls[0] in ls;
      BeforeSeparator(ls[0], NL, rest);
      assert s[|ls[0]| + 1..] == rest;
      LinesOfUnlines(ls[1..]);
    }
  }

  lemma {:induction false} SplitLinesOneLine(s: string)
    ensures forall l :: l in SplitLines(s) ==> OneLine(l)
    decreases |s|
  {
    BeforeIsPrefix(s, NL);
    if |Before(s, NL)| < |s| {
      SplitLinesOneLine(s[|Before(s, NL)| + 1..]);
    }
  }

  lemma {:induction false} DataLinesPrintable(parts: seq<string>)
    requires forall l :: l in parts ==> OneLine(l)
    ensures Printable(DataLines(parts))
  {
    if parts != [] {
      assert parts[0] in parts;
      DataLinesPrintable(parts[1..]);
    }
  }

  lemma ItemPrintable(it: Item)
    requires WellFormed(it)
    ensures Printable(ItemLines(it)) && ItemLines(it) != []
  {
    if it.Frame? {
      SplitLinesOneLine(it.body);
      DataLinesPrintable(SplitLines(it.body));
    }
  }

  /** Chomping a line that carries a key only ever touches the value. */
  lemma KeyedLine(prefix: string, value: string)
    requires prefix == "event: " || prefix == "id: " || prefix == "data: "
    ensures Chomp(prefix + value) == prefix + Chomp(value)
  {
    var l := prefix + value;
    if value != "" && value[|value| - 1] == '\r' {
      assert l[..|l| - 1] == prefix + value[..|value| - 1];
    }
  }

  lemma {:induction false} FindKey(key: string, value: string)
    requires ':' !in key
    ensures FindColon(key + ": " + value) == |key|
  {
    var l := key + ": " + value;
    if key != "" {
      assert l[1..] == key[1..] + ": " + value;
      FindKey(key[1..], value);
    }
  }

  lemma TakeKeyed(acc: Fields, prefix: string, value: string)
    requires prefix == "event: " || prefix == "id: " || prefix == "data: "
    ensures Take(acc, prefix + value) ==
      if prefix == "event: " then acc.(kind := Some(value))
      else if prefix == "id: " then acc.(id := Some(value))
      else acc.(data := acc.data + value)
  {
    var l, key := prefix + value, prefix[..|prefix| - 2];
    assert l == key + ": " + value;
    FindKey(key, value);
    assert l[..|key|] == key && l[|key| + 2..] == value;
  }

  /** `l` is a line of field `key` with this value: a bare key has an empty one. */
  predicate IsField(l: string, key: string, value: string) {
    l == key + ": " + value || (l == key && value == "")
  }

  predicate IsKey(key: string) { key == "event" || key == "id" || key == "data" }

  /** What a line of any text at all adds: the value of the one of the three fields it is of, and
      nothing if it is of none.  In particular a colon without a space after it ends no key. */
  lemma LineMeans(acc: Fields, l: string, key: string, value: string)
    ensures IsKey(key) && IsField(l, key, value) ==>
      Take(acc, l) ==
        if key == "event" then acc.(kind := Some(value))
        else if key == "id" then acc.(id := Some(value)) else acc.(data := acc.data + value)
    ensures (forall k, v :: IsKey(k) ==> !IsField(l, k, v)) ==> Take(acc, l) == acc
  {
    if IsKey(key) && IsField(l, key, value) {
      KeyIs(l, key, value);
      assert l != "" && l[0] == key[0];
    }
    KeyFound(l);
  }

  function AfterColon(l: string): string {
    if FindColon(l) + 2 <= |l| then l[FindColon(l) + 2..] else ""
  }

  lemma {:induction false} NoColon(l: string)
    requires ':' !in l
    ensures FindColon(l) == |l|
  {
    if |l| >= 2 {
      NoColon(l[1..]);
    }
  }

  lemma KeyIs(l: string, key: string, value: string)
    requires ':' !in key && IsField(l, key, value)
    ensures FindColon(l) == |key| && l[..|key|] == key && value == AfterColon(l)
  {
    if l == key + ": " + value {
      FindKey(key, value);
      assert l[|key| + 2..] == value;
    } else {
      NoColon(key);
    }
  }

  /** Any line is of the field that stands before its first colon and space. */
  lemma {:induction false} KeyFound(l: string)
    ensures IsField(l, l[..FindColon(l)], AfterColon(l))
  {
    if |l| >= 2 && !(l[0] == ':' && l[1] == ' ') {
      KeyFound(l[1..]);
      assert l[..FindColon(l)] == [l[0]] + l[1..][..FindColon(l[1..])];
      assert AfterColon(l) == AfterColon(l[1..]);
      assert l == [l[0]] + l[1..];
    } else if |l| >= 2 {
      assert l == "" + ": " + l[2..];
    }
  }

  lemma TakeFirst(acc: Fields, l: string, rest: seq<string>)
    ensures TakeAll(acc, [l] + rest) == TakeAll(Take(acc, l), rest)
  {
    assert ([l] + rest)[1..] == rest;
  }

  lemma {:induction false} TakeData(acc: Fields, parts: seq<string>)
    ensures TakeAll(acc, ChompAll(DataLines(parts)) + [""]) == acc.(data := acc.data + Concat(ChompAll(parts)))
    decreases parts
  {
    if parts == [] {
      assert ChompAll(DataLines(parts)) + [""] == [""] + [];
      TakeFirst(acc, "", []);
      assert acc.data + "" == acc.data;
    } else {
      var rest, value := ChompAll(DataLines(parts[1..])) + [""], Chomp(parts[0]);
      KeyedLine("data: ", parts[0]);
      TakeKeyed(acc, "data: ", value);
      assert ChompAll(DataLines(parts)) + [""] == ["data: " + value] + rest;
      TakeFirst(acc, "data: " + value, rest);
      TakeData(acc.(data := acc.data + value), parts[1..]);
      assert acc.data + value + Concat(ChompAll(parts[1..])) == acc.data + Concat(ChompAll(parts));
    }
  }

  lemma TakeFrame(acc: Fields, kind: string, body: string)
    requires acc.data == ""
    ensures TakeAll(acc, ChompAll(["event: " + kind] + DataLines(SplitLines(body))) + [""])
         == acc.(kind := Some(Chomp(kind)), data := Flattened(body))
  {
    var data := DataLines(SplitLines(body));
    KeyedLine("event: ", kind);
    TakeKeyed(acc, "event: ", Chomp(kind));
    assert (["event: " + kind] + data)[1..] == data;
    assert ChompAll(["event: " + kind] + data) + [""] == ["event: " + Chomp(kind)] + (ChompAll(data) + [""]);
    TakeFirst(acc, "event: " + Chomp(kind), ChompAll(data) + [""]);
    TakeData(acc.(kind := Some(Chomp(kind))), SplitLines(body));
  }

  /** Parsing one printed item gives back what it carried. */
  lemma ParseItem(it: Item)
    requires WellFormed(it)
    ensures Parse(PrintItem(it)) == if it.Keepalive? then None else Some(Received(it)[0])
  {
    ItemPrintable(it);
    LinesOfUnlines(ItemLines(it));
    var empty := Fields(None, None, "");
    if it.Keepalive? {
      assert Lines(PrintItem(it)) == [": keepalive"] + ([""] + []);
      TakeFirst(empty, ": keepalive", [""] + []);
      TakeFirst(empty, "", []);
    } else {
      var rest := ["event: " + it.kind] + DataLines(SplitLines(it.body));
      if it.id == "" {
        assert ItemLines(it) == rest;
        TakeFrame(empty, it.kind, it.body);
      } else {
        var value := Chomp(it.id);
        assert ItemLines(it) == ["id: " + it.id] + rest;
        assert (["id: " + it.id] + rest)[1..] == rest;
        KeyedLine("id: ", it.id);
        assert ChompAll(ItemLines(it)) + [""] == ["id: " + value] + (ChompAll(rest) + [""]);
        TakeFirst(empty, "id: " + value, ChompAll(rest) + [""]);
        TakeKeyed(empty, "id: ", value);
        TakeFrame(empty.(id := Some(value)), it.kind, it.body);
      }
    }
  }

  lemma PrintItemFrames(it: Item, rest: string)
    requires WellFormed(it)
    ensures Frames(PrintItem(it) + rest) == [PrintItem(it)] + Frames(rest)
    ensures Tail(PrintItem(it) + rest) == Tail(rest)
  {
    var p := PrintItem(it);
    ItemPrintable(it);
    BreakAfterItem(ItemLines(it), rest);
    assert (p + rest)[..|p|] == p && (p + rest)[|p|..] == rest;
  }

  /** The whole printed stream is cut into exactly its items and nothing is left over. */
  lemma {:induction false} PrintedFrames(items: seq<Item>)
    requires forall it :: it in items ==> WellFormed(it)
    ensures Messages(Frames(Print(items))) == ReceivedAll(items) && Tail(Print(items)) == ""
  {
    if items != [] {
      assert items[0] in items;
      PrintItemFrames(items[0], Print(items[1..]));
      FrontItem(items[0], Print(items[1..]));
      PrintedFrames(items[1..]);
    }
  }

  /** However the printed stream is cut into chunks, the reader yields one message per frame,
      in order, none for a keepalive, and ends with an empty buffer. */
  lemma ChunkedRoundTrip(items: seq<Item>, chunks: seq<string>)
    requires forall it :: it in items ==> WellFormed(it)
    requires Concat(chunks) == Print(items)
    ensures Messages(Frames(Concat(chunks))) == ReceivedAll(items) && Tail(Concat(chunks)) == ""
  {
    PrintedFrames(items);
  }

  /** `k` items of `items` were complete in `p`, and `p` ends inside the next one. */
  ghost predicate CutAfter(items: seq<Item>, p: string, k: nat) {
    && k <= |items| && p == Print(items[..k]) + Tail(p)
    && Messages(Frames(p)) == ReceivedAll(items[..k])
    && (if k < |items| then Tail(p) < PrintItem(items[k]) else Tail(p) == "")
  }

  lemma FrontItem(it: Item, rest: string)
    requires WellFormed(it)
    ensures Messages(Frames(PrintItem(it) + rest)) == Received(it) + Messages(Frames(rest))
  {
    PrintItemFrames(it, rest);
    ParseItem(it);
    MessagesAppend([PrintItem(it)], Frames(rest));
    MessagesOne(PrintItem(it));
  }

  lemma FirstItems(items: seq<Item>, k: nat)
    requires k < |items|
    ensures Print(items[..k + 1]) == PrintItem(items[0]) + Print(items[1..][..k])
    ensures ReceivedAll(items[..k + 1]) == Received(items[0]) + ReceivedAll(items[1..][..k])
  {
    assert items[..k + 1][1..] == items[1..][..k];
  }

  lemma TextAfterNext(items: seq<Item>, rest: string, k: nat, t: string)
    requires k < |items| && rest == Print(items[1..][..k]) + t
    ensures PrintItem(items[0]) + rest == Print(items[..k + 1]) + t
  {
    FirstItems(items, k);
    Reassociate(PrintItem(items[0]), Print(items[1..][..k]), t);
  }

  lemma CutAfterNext(items: seq<Item>, rest: string, k: nat)
    requires items != [] && WellFormed(items[0]) && CutAfter(items[1..], rest, k)
    ensures CutAfter(items, PrintItem(items[0]) + rest, k + 1)
  {
    TextAfterNext(items, rest, k, Tail(rest));
    assert Tail(PrintItem(items[0]) + rest) == Tail(rest) by { PrintItemFrames(items[0], rest); }
    assert Messages(Frames(PrintItem(items[0]) + rest)) == ReceivedAll(items[..k + 1]) by {
      FrontItem(items[0], rest);
      FirstItems(items, k);
    }
  }

  /** A stream cut off anywhere has yielded the items that were complete and holds
      the beginning of the next one. */
  lemma {:induction false} CutOffAnywhere(items: seq<Item>, p: string)
    requires forall it :: it in items ==> WellFormed(it)
    requires p <= Print(items)
    ensures exists k :: CutAfter(items, p, k)
    decreases |items|
  {
    if items == [] {
      assert CutAfter(items, p, 0);
    } else {
      var first := PrintItem(items[0]);
      assert items[0] in items;
      if |p| < |first| {
        assert p == first[..|p|];
        NoBreakInside(items[0], p);
        assert items[..0] == [];
        assert CutAfter(items, p, 0);
      } else {
        var rest := p[|first|..];
        assert p == first + rest;
        CutOffAnywhere(items[1..], rest);
        var k :| CutAfter(items[1..], rest, k);
        CutAfterNext(items, rest, k);
      }
    }
  }

  lemma NoBreakInside(it: Item, p: string)
    requires WellFormed(it) && p < PrintItem(it)
    ensures FindBreak(p) < 0
  {
    var rest := PrintItem(it)[|p|..];
    assert p + rest == PrintItem(it) + "" == PrintItem(it);
    ItemPrintable(it);
    BreakAfterItem(ItemLines(it), "");
    if FindBreak(p) >= 0 {
      BreakStays(p, rest);
    }
  }

  // ---------- exactly which frames survive ----------

  predicate EndsWithReturn(s: string) { s != "" && s[|s| - 1] == '\r' }

  lemma {:induction false} FlattenedShrinks(body: string)
    ensures |Flattened(body)| <= |body|
    ensures !OneLine(body) ==> |Flattened(body)| < |body|
    decreases |body|
  {
    BeforeIsPrefix(body, NL);
    var l := Before(body, NL);
    if |l| == |body| {
      assert ChompAll([body]) == [Chomp(body)];
      assert Concat([Chomp(body)]) == Chomp(body) + "";
    } else {
      FlattenedShrinks(body[|l| + 1..]);
      assert ChompAll(SplitLines(body)) == [Chomp(l)] + ChompAll(SplitLines(body[|l| + 1..]));
    }
  }

  /** A frame comes back as it was sent if and only if its body is one line and no part of
      it ends in a carriage return, which the line splitting would take. */
  lemma FaithfulIff(id: string, kind: string, body: string)
    requires OneLine(id) && OneLine(kind)
    ensures Received(Frame(id, kind, body)) == [Message(kind, if id == "" then None else Some(id), body)]
      <==> OneLine(body) && !EndsWithReturn(body) && !EndsWithReturn(kind) && !EndsWithReturn(id)
  {
    FlattenedShrinks(body);
    if OneLine(body) {
      BeforeIsPrefix(body, NL);
      assert SplitLines(body) == [body];
      assert ChompAll([body]) == [Chomp(body)];
      assert Concat([Chomp(body)]) == Chomp(body) + "" == Chomp(body);
    }
  }

  lemma {:induction false} UnlinesSnoc(ls: seq<string>, l: string)
    ensures Unlines(ls + [l]) == Unlines(ls) + l + [NL]
  {
    if ls == [] {
      assert [l][1..] == [];
      assert Unlines([l]) == l + [NL] + "" == "" + l + [NL];
    } else {
      UnlinesSnoc(ls[1..], l);
      assert (ls + [l])[1..] == ls[1..] + [l];
    }
  }

  lemma {:induction false} DataLinesSnoc(parts: seq<string>, p: string)
    ensures DataLines(parts + [p]) == DataLines(parts) + ["data: " + p]
  {
    if parts == [] {
      assert parts + [p] == [p];
    } else {
      DataLinesSnoc(parts[1..], p);
      assert (parts + [p])[1..] == parts[1..] + [p];
    }
  }

  /** The printer writes field by field; what comes out is the frame's lines and a blank one. */
  method WriteFrame(id: string, kind: string, body: string) returns (text: string)
    ensures text == PrintItem(Frame(id, kind, body))
  {
    ghost var head := [];
    text := "";
    if id != "" {
      text := text + "id: " + id + [NL];
      head := ["id: " + id];
      UnlinesSnoc([], "id: " + id);
    }
    UnlinesSnoc(head, "event: " + kind);
    text := text + ("event: " + kind) + [NL];
    head := head + ["event: " + kind];
    var parts := SplitLines(body);
    for i := 0 to |parts|
      invariant text == Unlines(head + DataLines(parts[..i]))
    {
      UnlinesSnoc(head + DataLines(parts[..i]), "data: " + parts[i]);
      DataLinesSnoc(parts[..i], parts[i]);
      assert parts[..i + 1] == parts[..i] + [parts[i]];
      assert head + (DataLines(parts[..i]) + ["data: " + parts[i]])
          == head + DataLines(parts[..i]) + ["data: " + parts[i]];
      text := text + ("data: " + parts[i]) + [NL];
    }
    assert parts[..|parts|] == parts;
    text := text + [NL];
  }

  /** The id of an event comes back as text that reads as the same number, so resuming from
      it asks the hub for exactly the events after it. */
  lemma EventIdSurvives(id: nat, kind: string, body: string)
    requires OneLine(kind)
    ensures Received(Frame(Nat(id), kind, body))[0].id == Some(Nat(id)) && Value(Nat(id)) == id
    ensures WellFormed(Frame(Nat(id), kind, body))
  {
    NatRoundTrip(id);
  }
}
