/** The chunk-fed event-stream parser of the simulator's proxy. */
module Sse {
  import opened Core
  import opened Text

  datatype Event = Event(name: Option<string>, data: string)

  /** The fields of the event being collected. */
  datatype Pending = Pending(dataLines: seq<string>, eventName: Option<string>)

  const NO_FIELDS := Pending([], None)

  /** What the parser carries from one chunk to the next. */
  datatype State = State(buffer: string, pending: Pending)

  const FRESH := State("", NO_FIELDS)

  /** One item of the upstream body: text, or a transport error with its printed description. */
  datatype Item = Chunk(text: string) | Failure(report: string)

  // ----- lines -----

  /** Position of the first newline, or the length when there is none. */
  function Newline(s: string): (n: nat)
    ensures n <= |s|
    ensures n < |s| ==> s[n] == '\n'
    ensures forall i :: 0 <= i < n ==> s[i] != '\n'
  {
    if s == "" || s[0] == '\n' then 0 else 1 + Newline(s[1..])
  }

  /** Removes every trailing carriage return. */
  function StripCr(s: string): string {
    if s != "" && s[|s| - 1] == '\r' then StripCr(s[..|s| - 1]) else s
  }

  function Join(lines: seq<string>): string {
    if lines == [] then ""
    else if |lines| == 1 then lines[0]
    else lines[0] + "\n" + Join(lines[1..])
  }

  /** Effect of one complete line. */
  function OnLine(p: Pending, line: string): (Pending, seq<Event>) {
    if line == "" then
      if p.dataLines != [] || p.eventName.Some? then (NO_FIELDS, [Event(p.eventName, Join(p.dataLines))])
      else (p, [])
    else if "event:" <= line then (p.(eventName := Some(Trim(line[6..]))), [])
    else if "data:" <= line then (p.(dataLines := p.dataLines + [TrimStart(line[5..])]), [])
    else (p, [])
  }

  /** Consumes every complete line of the buffer. */
  function Drain(st: State): (State, seq<Event>)
    decreases |st.buffer|
  {
    var n := Newline(st.buffer);
    if n == |st.buffer| then (st, [])
    else
      var (p1, e1) := OnLine(st.pending, StripCr(st.buffer[..n]));
      var (s2, e2) := Drain(State(st.buffer[n + 1..], p1));
      (s2, e1 + e2)
  }

  function Feed(st: State, text: string): (State, seq<Event>) {
    Drain(st.(buffer := st.buffer + text))
  }

  function FeedAll(st: State, chunks: seq<string>): (State, seq<Event>)
    decreases |chunks|
  {
    if chunks == [] then (st, [])
    else
      var (s1, e1) := Feed(st, chunks[0]);
      var (s2, e2) := FeedAll(s1, chunks[1..]);
      (s2, e1 + e2)
  }

  function Concat(chunks: seq<string>): string {
    if chunks == [] then "" else chunks[0] + Concat(chunks[1..])
  }

  // ----- chunk independence -----

  lemma Assoc<T>(a: seq<T>, b: seq<T>, c: seq<T>)
    ensures a + (b + c) == a + b + c
  {
  }

  lemma {:induction false} NewlineAppend(a: string, b: string)
    ensures Newline(a) < |a| ==> Newline(a + b) == Newline(a)
    decreases |a|
  {
    if a != "" && a[0] != '\n' {
      assert (a + b)[1..] == a[1..] + b;
      NewlineAppend(a[1..], b);
    }
  }

  lemma NoNewlineLeft(st: State)
    ensures Newline(Drain(st).0.buffer) == |Drain(st).0.buffer|
    decreases |st.buffer|
  {
    hide OnLine;
    var n := Newline(st.buffer);
    if n < |st.buffer| {
      NoNewlineLeft(State(st.buffer[n + 1..], OnLine(st.pending, StripCr(st.buffer[..n])).0));
    }
  }

  /** The state and the events after the first complete line. */
  function FirstLine(st: State): (State, seq<Event>)
    requires Newline(st.buffer) < |st.buffer|
  {
    var n := Newline(st.buffer);
    var (p1, e1) := OnLine(st.pending, StripCr(st.buffer[..n]));
    (State(st.buffer[n + 1..], p1), e1)
  }

  lemma FeedFirst(st: State, b: string)
    requires Newline(st.buffer) < |st.buffer|
    ensures var (s1, e1) := FirstLine(st);
            && |s1.buffer| < |st.buffer|
            && Drain(st) == (Drain(s1).0, e1 + Drain(s1).1)
            && Feed(st, b) == (Feed(s1, b).0, e1 + Feed(s1, b).1)
  {
    hide OnLine, StripCr, Drain;
    var a := st.buffer;
    var n := Newline(a);
    NewlineAppend(a, b);
    assert (a + b)[..n] == a[..n];
    assert (a + b)[n + 1..] == a[n + 1..] + b;
    DrainFirst(st);
    DrainFirst(st.(buffer := a + b));
  }

  lemma DrainFirst(st: State)
    requires Newline(st.buffer) < |st.buffer|
    ensures var (s1, e1) := FirstLine(st); Drain(st) == (Drain(s1).0, e1 + Drain(s1).1)
  {
    hide OnLine, StripCr, Newline;
  }

  /** Draining a longer buffer is draining its first part and then the leftover with the rest. */
  lemma {:induction false} DrainSplit(st: State, b: string)
    ensures var (s1, e1) := Drain(st);
            var (s2, e2) := Feed(s1, b);
            Feed(st, b) == (s2, e1 + e2)
    decreases |st.buffer|
  {
    hide OnLine, StripCr, Feed;
    if Newline(st.buffer) == |st.buffer| {
      assert Drain(st) == (st, []);
      assert [] + Feed(st, b).1 == Feed(st, b).1;
    } else {
      var (s1, e1) := FirstLine(st);
      FeedFirst(st, b);
      hide Drain, FirstLine;
      DrainSplit(s1, b);
      var (s2, e2) := Drain(s1);
      var (s3, e3) := Feed(s2, b);
      Assoc(e1, e2, e3);
    }
  }

  lemma FeedConcat(st: State, a: string, b: string)
    ensures var (s1, e1) := Feed(st, a);
            var (s2, e2) := Feed(s1, b);
            Feed(st, a + b) == (s2, e1 + e2)
  {
    hide Drain;
    Assoc(st.buffer, a, b);
    DrainSplit(st.(buffer := st.buffer + a), b);
  }

  /**
   * Events and leftover state depend only on the concatenation of the chunks, provided the
   * starting leftover holds no complete line (true of a fresh parser and after every chunk).
   */
  lemma {:induction false} ChunkIndependence(st: State, chunks: seq<string>)
    requires Newline(st.buffer) == |st.buffer|
    ensures FeedAll(st, chunks) == Feed(st, Concat(chunks))
    decreases |chunks|
  {
    if chunks == [] {
      assert st.buffer + "" == st.buffer;
    } else {
      NoNewlineLeft(st.(buffer := st.buffer + chunks[0]));
      FeedConcat(st, chunks[0], Concat(chunks[1..]));
      var next := Feed(st, chunks[0]).0;
      assert Newline(next.buffer) == |next.buffer|;
      hide Feed, Drain, Newline;
      ChunkIndependence(next, chunks[1..]);
    }
  }

  lemma {:induction false} FeedAllSnoc(st: State, chunks: seq<string>, c: string)
    ensures var (s1, e1) := FeedAll(st, chunks);
            var (s2, e2) := Feed(s1, c);
            FeedAll(st, chunks + [c]) == (s2, e1 + e2)
    decreases |chunks|
  {
    hide Drain;
    if chunks == [] {
      assert [] + [c] == [c] && [c][1..] == [];
      assert [] + Feed(st, c).1 == Feed(st, c).1 + [];
    } else {
      assert (chunks + [c])[1..] == chunks[1..] + [c];
      var (s1, e1) := Feed(st, chunks[0]);
      FeedAllSnoc(s1, chunks[1..], c);
      var (s2, e2) := FeedAll(s1, chunks[1..]);
      var (s3, e3) := Feed(s2, c);
      Assoc(e1, e2, e3);
    }
  }

  // ----- the proxy loop -----

  /** The text chunks before the first transport error. */
  function Texts(items: seq<Item>): seq<string> {
    if items == [] || items[0].Failure? then [] else [items[0].text] + Texts(items[1..])
  }

  /** The event reported for the first transport error, if there is one. */
  function Report(items: seq<Item>): seq<Event> {
    if items == [] then []
    else if items[0].Failure? then [Event(Some("proxy-error"), items[0].report)]
    else Report(items[1..])
  }

  lemma {:induction false} TextsTake(items: seq<Item>, k: nat)
    requires k < |items|
    requires forall i :: 0 <= i < k ==> items[i].Chunk?
    ensures |Texts(items[..k])| == k
    ensures items[k].Chunk? ==> Texts(items[..k + 1]) == Texts(items[..k]) + [items[k].text]
    ensures items[k].Failure?
            ==> Texts(items) == Texts(items[..k]) && Report(items) == [Event(Some("proxy-error"), items[k].report)]
    decreases k
  {
    if k == 0 {
      assert items[k].Chunk? ==> items[..1] == [items[0]];
    } else {
      assert items[..k][1..] == items[1..][..k - 1];
      assert items[..k + 1][1..] == items[1..][..k];
      TextsTake(items[1..], k - 1);
    }
  }

  lemma {:induction false} NoReport(items: seq<Item>)
    requires forall i :: 0 <= i < |items| ==> items[i].Chunk?
    ensures Report(items) == []
    decreases |items|
  {
    if items != [] {
      NoReport(items[1..]);
    }
  }

  /** The texts that arrived before item `k`. */
  function Arrived(items: seq<Item>, k: nat): seq<string>
    requires k <= |items| && forall i :: 0 <= i < k ==> items[i].Chunk?
  {
    seq(k, i requires 0 <= i < k => items[i].text)
  }

  lemma {:induction false} TextsArrived(items: seq<Item>, k: nat)
    requires k <= |items| && (forall i :: 0 <= i < k ==> items[i].Chunk?) && (k < |items| ==> items[k].Failure?)
    ensures Texts(items) == Arrived(items, k)
    ensures Report(items) == if k < |items| then [Event(Some("proxy-error"), items[k].report)] else []
    decreases k
  {
    if k > 0 {
      TextsArrived(items[1..], k - 1);
      assert Arrived(items, k) == [items[0].text] + Arrived(items[1..], k - 1);
    }
  }

  /** The proxy's loop: emits the events of the text up to the first transport error, then that error. */
  method ProxyStream(items: seq<Item>)
    returns (events: seq<Event>, buffer: string, dataLines: seq<string>, eventName: Option<string>)
    ensures var (st, out) := Feed(FRESH, Concat(Texts(items)));
            events == out + Report(items) && State(buffer, Pending(dataLines, eventName)) == st
  {
    hide Drain, OnLine;
    buffer, dataLines, eventName, events := "", [], None, [];
    var k := 0;
    while k < |items|
      invariant 0 <= k <= |items|
      invariant forall i :: 0 <= i < k ==> items[i].Chunk?
      invariant (State(buffer, Pending(dataLines, eventName)), events) == FeedAll(FRESH, Texts(items[..k]))
    {
      TextsTake(items, k);
      match items[k] {
        case Chunk(text) =>
          FeedAllSnoc(FRESH, Texts(items[..k]), text);
          var more;
          more, buffer, dataLines, eventName := TakeLines(buffer + text, dataLines, eventName);
          events := events + more;
        case Failure(report) =>
          ChunkIndependence(FRESH, Texts(items));
          events := events + [Event(Some("proxy-error"), report)];
          return;
      }
      k := k + 1;
    }
    assert items[..k] == items;
    NoReport(items);
    assert events + [] == events;
    ChunkIndependence(FRESH, Texts(items));
  }

  /** The inner loop: takes complete lines off the buffer. */
  method TakeLines(buffer0: string, dataLines0: seq<string>, eventName0: Option<string>)
    returns (events: seq<Event>, buffer: string, dataLines: seq<string>, eventName: Option<string>)
    ensures (State(buffer, Pending(dataLines, eventName)), events)
            == Drain(State(buffer0, Pending(dataLines0, eventName0)))
  {
    hide OnLine, StripCr;
    buffer, dataLines, eventName, events := buffer0, dataLines0, eventName0, [];
    ghost var all := Drain(State(buffer0, Pending(dataLines0, eventName0)));
    assert [] + all.1 == all.1;
    var newline := Newline(buffer);
    while newline < |buffer|
      invariant newline == Newline(buffer)
      invariant var (st, rest) := Drain(State(buffer, Pending(dataLines, eventName))); all == (st, events + rest)
      decreases |buffer|
    {
      var line := StripCr(buffer[..newline]);
      buffer := buffer[newline + 1..];
      var emitted;
      emitted, dataLines, eventName := TakeLine(line, dataLines, eventName);
      Assoc(events, emitted, Drain(State(buffer, Pending(dataLines, eventName))).1);
      events := events + emitted;
      newline := Newline(buffer);
    }
    assert events + [] == events;
  }

  /** The body of the inner loop once a line is cut off. */
  method TakeLine(line: string, dataLines0: seq<string>, eventName0: Option<string>)
    returns (events: seq<Event>, dataLines: seq<string>, eventName: Option<string>)
    ensures (Pending(dataLines, eventName), events) == OnLine(Pending(dataLines0, eventName0), line)
  {
    dataLines, eventName, events := dataLines0, eventName0, [];
    if line == "" {
      if dataLines != [] || eventName.Some? {
        events := [Event(eventName, Join(dataLines))];
        eventName := None;
        dataLines := [];
      }
    } else if "event:" <= line {
      eventName := Some(Trim(line[6..]));
    } else if "data:" <= line {
      dataLines := dataLines + [TrimStart(line[5..])];
    }
  }

  // ----- the printer -----

  function Split(s: string): (lines: seq<string>)
    decreases |s|
  {
    var n := Newline(s);
    if n == |s| then [s] else [s[..n]] + Split(s[n + 1..])
  }

  function PrintData(lines: seq<string>): string {
    if lines == [] then "" else "data: " + lines[0] + "\n" + PrintData(lines[1..])
  }

  function Print(e: Event): string {
    (if e.name.Some? then "event: " + e.name.value + "\n" else "") + PrintData(Split(e.data)) + "\n"
  }

  function PrintAll(es: seq<Event>): string {
    if es == [] then "" else Print(es[0]) + PrintAll(es[1..])
  }

  predicate PlainLine(s: string) {
    s == "" || (!IsSpace(s[0]) && s[|s| - 1] != '\r')
  }

  /** Names are trimmed and on one line; data lines have no leading space and no trailing carriage return. */
  predicate Printable(e: Event) {
    && (e.name.Some? ==> Trimmed(e.name.value) && '\n' !in e.name.value)
    && forall i :: 0 <= i < |Split(e.data)| ==> PlainLine(Split(e.data)[i])
  }

  lemma {:induction false} SplitJoin(s: string)
    ensures Split(s) != [] && Join(Split(s)) == s
    ensures forall i :: 0 <= i < |Split(s)| ==> '\n' !in Split(s)[i]
    decreases |s|
  {
    var n := Newline(s);
    if n < |s| {
      var rest := s[n + 1..];
      SplitJoin(rest);
      assert Split(s)[1..] == Split(rest);
      assert s == s[..n] + "\n" + rest;
    }
  }

  lemma {:induction false} NewlineAt(line: string, rest: string)
    requires '\n' !in line
    ensures Newline(line + "\n" + rest) == |line|
    decreases |line|
  {
    var s := line + "\n" + rest;
    if line != "" {
      assert s[1..] == line[1..] + "\n" + rest;
      NewlineAt(line[1..], rest);
    }
  }

  /** A printed line at the front of the buffer is consumed on its own. */
  lemma DrainLine(st: State, line: string, rest: string)
    requires st.buffer == line + "\n" + rest
    requires '\n' !in line && (line == "" || line[|line| - 1] != '\r')
    ensures var (p1, e1) := OnLine(st.pending, line);
            var (s2, e2) := Drain(State(rest, p1));
            Drain(st) == (s2, e1 + e2)
  {
    hide OnLine;
    NewlineAt(line, rest);
    assert st.buffer[..|line|] == line;
    assert st.buffer[|line| + 1..] == rest;
  }

  lemma TrimStartSpace(s: string)
    requires s == "" || !IsSpace(s[0])
    ensures TrimStart(" " + s) == s
  {
    assert (" " + s)[1..] == s;
  }

  lemma OnDataLine(p: Pending, l: string)
    requires l == "" || !IsSpace(l[0])
    ensures OnLine(p, "data: " + l) == (p.(dataLines := p.dataLines + [l]), [])
  {
    var line := "data: " + l;
    assert line[0] == 'd' && "data:" <= line;
    assert line[5..] == " " + l;
    TrimStartSpace(l);
  }

  lemma OnNameLine(p: Pending, name: string)
    requires Trimmed(name)
    ensures OnLine(p, "event: " + name) == (p.(eventName := Some(name)), [])
  {
    var line := "event: " + name;
    assert "event:" <= line;
    assert line[6..] == " " + name;
    TrimStartSpace(name);
    TrimIsTrimmed(name);
    assert TrimStart(name) == name;
  }

  lemma {:induction false} DrainData(st: State, lines: seq<string>, rest: string)
    requires forall i :: 0 <= i < |lines| ==> PlainLine(lines[i]) && '\n' !in lines[i]
    requires st.buffer == PrintData(lines) + rest
    ensures Drain(st) == Drain(State(rest, st.pending.(dataLines := st.pending.dataLines + lines)))
    decreases |lines|
  {
    hide OnLine, Drain;
    var p := st.pending;
    if lines == [] {
      assert st.buffer == rest && p.dataLines + lines == p.dataLines;
      assert st == State(rest, p.(dataLines := p.dataLines + lines));
    } else {
      var line := "data: " + lines[0];
      var tail := PrintData(lines[1..]) + rest;
      assert st.buffer == line + "\n" + tail;
      DrainLine(st, line, tail);
      OnDataLine(p, lines[0]);
      var p1 := p.(dataLines := p.dataLines + [lines[0]]);
      assert [] + Drain(State(tail, p1)).1 == Drain(State(tail, p1)).1;
      DrainData(State(tail, p1), lines[1..], rest);
      assert p1.dataLines + lines[1..] == p.dataLines + lines;
    }
  }

  lemma DrainName(p: Pending, name: string, rest: string)
    requires Trimmed(name) && '\n' !in name
    ensures Drain(State("event: " + name + "\n" + rest, p)) == Drain(State(rest, p.(eventName := Some(name))))
  {
    hide OnLine, Drain;
    var line := "event: " + name;
    assert line[|line| - 1] != '\r';
    DrainLine(State(line + "\n" + rest, p), line, rest);
    OnNameLine(p, name);
    var out := Drain(State(rest, p.(eventName := Some(name)))).1;
    assert [] + out == out;
  }

  lemma DrainEvent(e: Event, rest: string)
    requires Printable(e)
    ensures var (st, out) := Drain(State(rest, NO_FIELDS));
            Drain(State(Print(e) + rest, NO_FIELDS)) == (st, [e] + out)
  {
    hide Drain;
    SplitJoin(e.data);
    var lines := Split(e.data);
    var body := PrintData(lines) + ("\n" + rest);
    if e.name.Some? {
      assert Print(e) + rest == "event: " + e.name.value + "\n" + body;
      DrainName(NO_FIELDS, e.name.value, body);
    } else {
      assert Print(e) + rest == body;
    }
    DrainData(State(body, Pending([], e.name)), lines, "\n" + rest);
    assert [] + lines == lines;
    assert "\n" + rest == "" + "\n" + rest;
    DrainLine(State("\n" + rest, Pending(lines, e.name)), "", rest);
  }

  lemma {:induction false} DrainAll(es: seq<Event>)
    requires forall i :: 0 <= i < |es| ==> Printable(es[i])
    ensures Drain(State(PrintAll(es), NO_FIELDS)) == (FRESH, es)
    decreases |es|
  {
    if es != [] {
      DrainEvent(es[0], PrintAll(es[1..]));
      DrainAll(es[1..]);
      assert es == [es[0]] + es[1..];
    }
  }

  // ----- what the parser can emit -----

  /** What is collected so far prints back line by line. */
  ghost predicate Collectible(p: Pending) {
    && (p.eventName.Some? ==> Trimmed(p.eventName.value) && '\n' !in p.eventName.value)
    && forall i :: 0 <= i < |p.dataLines| ==> PlainLine(p.dataLines[i]) && '\n' !in p.dataLines[i]
  }

  lemma {:induction false} SplitLines(lines: seq<string>)
    requires lines != [] && forall i :: 0 <= i < |lines| ==> '\n' !in lines[i]
    ensures Split(Join(lines)) == lines
    decreases |lines|
  {
    if |lines| == 1 {
      NoNewline(lines[0]);
    } else {
      var rest := Join(lines[1..]);
      assert Join(lines) == lines[0] + "\n" + rest;
      NewlineAt(lines[0], rest);
      assert Join(lines)[..|lines[0]|] == lines[0] && Join(lines)[|lines[0]| + 1..] == rest;
      SplitLines(lines[1..]);
    }
  }

  lemma {:induction false} NoNewline(s: string)
    requires '\n' !in s
    ensures Newline(s) == |s|
    decreases |s|
  {
    if s != "" {
      NoNewline(s[1..]);
    }
  }

  lemma {:induction false} TrimStartSuffix(s: string) returns (k: nat)
    ensures k <= |s| && TrimStart(s) == s[k..]
    decreases |s|
  {
    k := 0;
    if s != "" && IsSpace(s[0]) {
      k := TrimStartSuffix(s[1..]);
      k := k + 1;
    }
  }

  lemma {:induction false} StripCrPrefix(s: string)
    ensures StripCr(s) <= s && (StripCr(s) == "" || StripCr(s)[|StripCr(s)| - 1] != '\r')
    decreases |s|
  {
    if s != "" && s[|s| - 1] == '\r' {
      StripCrPrefix(s[..|s| - 1]);
    }
  }

  lemma PlainData(v: string)
    requires '\n' !in v && (v == "" || v[|v| - 1] != '\r')
    ensures PlainLine(TrimStart(v)) && '\n' !in TrimStart(v)
  {
    var k := TrimStartSuffix(v);
    TrimStartHead(v);
    hide TrimStart;
    assert TrimStart(v) != "" ==> TrimStart(v)[|v| - k - 1] == v[|v| - 1];
  }

  lemma PlainName(v: string)
    requires '\n' !in v
    ensures Trimmed(Trim(v)) && '\n' !in Trim(v)
  {
    TrimIsTrimmed(v);
    var k := TrimStartSuffix(v);
    TrimEndEnds(TrimStart(v));
    assert Trim(v) <= v[k..];
    hide TrimStart, TrimEnd;
  }

  lemma DispatchPrintable(p: Pending)
    requires Collectible(p)
    ensures Printable(Event(p.eventName, Join(p.dataLines)))
  {
    if p.dataLines != [] {
      SplitLines(p.dataLines);
    } else {
      NoNewline("");
    }
  }

  ghost predicate AllPrintable(es: seq<Event>) {
    forall i :: 0 <= i < |es| ==> Printable(es[i])
  }

  lemma LinePrintable(p: Pending, line: string)
    requires Collectible(p) && '\n' !in line && (line == "" || line[|line| - 1] != '\r')
    ensures Collectible(OnLine(p, line).0) && AllPrintable(OnLine(p, line).1)
  {
    hide Printable, TrimStart, TrimEnd, Trim, PlainLine, Join;
    if line == "" {
      DispatchPrintable(p);
    } else if "event:" <= line {
      PlainName(line[6..]);
    } else if "data:" <= line {
      PlainData(line[5..]);
    }
  }

  lemma {:induction false} DrainPrintable(st: State)
    requires Collectible(st.pending)
    ensures AllPrintable(Drain(st).1)
    decreases |st.buffer|
  {
    hide OnLine, StripCr, AllPrintable, Collectible, Feed;
    AppendPrintable([], []);
    var n := Newline(st.buffer);
    if n < |st.buffer| {
      StripCrPrefix(st.buffer[..n]);
      LinePrintable(st.pending, StripCr(st.buffer[..n]));
      var (s1, e1) := FirstLine(st);
      FeedFirst(st, "");
      DrainPrintable(s1);
      AppendPrintable(e1, Drain(s1).1);
    }
  }

  lemma AppendPrintable(a: seq<Event>, b: seq<Event>)
    ensures AllPrintable(a) && AllPrintable(b) ==> AllPrintable(a + b)
    ensures AllPrintable([])
  {
  }

  /** Every event the parser emits, over any chunks, is printable. */
  lemma EmitsPrintable(chunks: seq<string>)
    ensures AllPrintable(FeedAll(FRESH, chunks).1)
  {
    ChunkIndependence(FRESH, chunks);
    DrainPrintable(State("" + Concat(chunks), NO_FIELDS));
  }

  /**
   * However the printed text of some events is cut into chunks, the parser answers those very events,
   * with nothing left over, if and only if each of them is printable.
   */
  lemma ParsePrint(es: seq<Event>, chunks: seq<string>)
    requires Concat(chunks) == PrintAll(es)
    ensures FeedAll(FRESH, chunks) == (FRESH, es) <==> AllPrintable(es)
  {
    hide Drain, Printable, FeedAll;
    if AllPrintable(es) {
      ChunkIndependence(FRESH, chunks);
      assert "" + PrintAll(es) == PrintAll(es);
      DrainAll(es);
    }
    EmitsPrintable(chunks);
  }
}
