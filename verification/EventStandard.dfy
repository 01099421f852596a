/**
 * The line interpretation of section 9.2.6 of the WHATWG HTML standard, and exactly where the
 * simulator's parser agrees with it.
 */
module EventStandard {
  import opened Core
  import opened Text
  import opened Sse

  /** The data and event type buffers. */
  datatype Buffers = Buffers(data: string, eventType: string)

  /** A dispatched event; the empty type stands for "message". */
  datatype Message = Message(eventType: string, data: string)

  /** Position of the first colon, or the length when there is none. */
  function Colon(s: string): (n: nat)
    ensures n <= |s|
    ensures n < |s| ==> s[n] == ':'
    ensures forall i :: 0 <= i < n ==> s[i] != ':'
  {
    if s == "" || s[0] == ':' then 0 else 1 + Colon(s[1..])
  }

  /** A value loses one leading space, no more. */
  function Unspaced(v: string): string {
    if v != "" && v[0] == ' ' then v[1..] else v
  }

  function Process(b: Buffers, field: string, value: string): Buffers {
    if field == "event" then b.(eventType := value)
    else if field == "data" then b.(data := b.data + value + "\n")
    else b
  }

  function Interpret(b: Buffers, line: string): (Buffers, seq<Message>) {
    if line == "" then
      (Buffers("", ""), if b.data == "" then [] else [Message(b.eventType, b.data[..|b.data| - 1])])
    else
      var n := Colon(line);
      if n == |line| then (Process(b, line, ""), [])
      else (Process(b, line[..n], Unspaced(line[n + 1..])), [])
  }

  // ----- one line -----

  function DataBuffer(lines: seq<string>): string
    decreases |lines|
  {
    if lines == [] then "" else DataBuffer(lines[..|lines| - 1]) + lines[|lines| - 1] + "\n"
  }

  function TypeOf(name: Option<string>): string {
    if name.Some? then name.value else ""
  }

  predicate Alike(p: Pending, b: Buffers) {
    b == Buffers(DataBuffer(p.dataLines), TypeOf(p.eventName))
  }

  function Messages(es: seq<Event>): seq<Message> {
    seq(|es|, i requires 0 <= i < |es| => Message(TypeOf(es[i].name), es[i].data))
  }

  /** Parser and standard do the same with `line`, as far as any later line can tell. */
  predicate SameEffect(p: Pending, b: Buffers, line: string) {
    Alike(OnLine(p, line).0, Interpret(b, line).0) && Messages(OnLine(p, line).1) == Interpret(b, line).1
  }

  /** What can be read off the line and what was collected before it. */
  predicate Conforming(p: Pending, line: string) {
    if line == "" then p.dataLines != [] || p.eventName.None?
    else if "event:" <= line then Trim(line[6..]) == Unspaced(line[6..])
    else if "data:" <= line then TrimStart(line[5..]) == Unspaced(line[5..])
    else if line == "event" then TypeOf(p.eventName) == ""
    else line != "data"
  }

  lemma ColonAt(line: string, field: string)
    requires ':' !in field && field + ":" <= line
    ensures Colon(line) == |field| && line[..|field|] == field
  {
    assert line[|field|] == ':';
    assert forall i :: 0 <= i < |field| ==> line[i] == field[i];
  }

  lemma {:induction false} BufferJoin(lines: seq<string>)
    ensures lines != [] ==> DataBuffer(lines) == Join(lines) + "\n"
    decreases |lines|
  {
    if |lines| > 1 {
      var last := |lines| - 1;
      BufferJoin(lines[..last]);
      JoinSnoc(lines[..last], lines[last]);
      assert lines[..last] + [lines[last]] == lines;
    }
  }

  lemma {:induction false} JoinSnoc(lines: seq<string>, x: string)
    requires lines != []
    ensures Join(lines + [x]) == Join(lines) + "\n" + x
    decreases |lines|
  {
    if |lines| == 1 {
      assert (lines + [x])[1..] == [x];
    } else {
      JoinSnoc(lines[1..], x);
      assert (lines + [x])[1..] == lines[1..] + [x];
    }
  }

  lemma BlankLine(p: Pending, b: Buffers)
    requires Alike(p, b)
    ensures SameEffect(p, b, "") <==> Conforming(p, "")
  {
    hide Join;
    BufferJoin(p.dataLines);
    if p.dataLines != [] {
      assert b.data[..|b.data| - 1] == Join(p.dataLines);
    }
  }

  lemma DataAppend(a: string, x: string, y: string)
    ensures a + x + "\n" == a + y + "\n" <==> x == y
  {
    if a + x + "\n" == a + y + "\n" {
      assert (a + x + "\n")[|a|..|a| + |x|] == x;
      assert (a + y + "\n")[|a|..|a| + |y|] == y;
    }
  }

  lemma DataLine(p: Pending, b: Buffers, line: string)
    requires Alike(p, b) && "data:" <= line
    ensures SameEffect(p, b, line) <==> Conforming(p, line)
  {
    hide OnLine, Interpret, Conforming, TrimStart, Unspaced, Join;
    DataRead(p, line);
    DataInterpreted(b, line);
    DataConforming(p, line);
    var x := TrimStart(line[5..]);
    assert (p.dataLines + [x])[..|p.dataLines|] == p.dataLines;
    DataAppend(b.data, x, Unspaced(line[5..]));
  }

  lemma DataRead(p: Pending, line: string)
    requires "data:" <= line
    ensures OnLine(p, line) == (p.(dataLines := p.dataLines + [TrimStart(line[5..])]), [])
  {
    hide TrimStart;
    assert line[0] == 'd';
  }

  lemma DataInterpreted(b: Buffers, line: string)
    requires "data:" <= line
    ensures Interpret(b, line) == (b.(data := b.data + Unspaced(line[5..]) + "\n"), [])
  {
    hide Unspaced;
    ColonAt(line, "data");
    assert "data"[0] != "event"[0];
  }

  lemma DataConforming(p: Pending, line: string)
    requires "data:" <= line
    ensures Conforming(p, line) <==> TrimStart(line[5..]) == Unspaced(line[5..])
  {
    hide TrimStart, Unspaced;
    assert line[0] == 'd';
  }

  lemma NameLine(p: Pending, b: Buffers, line: string)
    requires Alike(p, b) && "event:" <= line
    ensures SameEffect(p, b, line) <==> Conforming(p, line)
  {
    hide Trim, Join;
    ColonAt(line, "event");
  }

  lemma OtherLine(p: Pending, b: Buffers, line: string)
    requires Alike(p, b) && line != "" && !("event:" <= line) && !("data:" <= line)
    ensures SameEffect(p, b, line) <==> Conforming(p, line)
  {
    hide Join;
    var n := Colon(line);
    if n < |line| {
      assert line[..n + 1] == line[..n] + ":";
    } else if line == "data" {
      assert |b.data + "" + "\n"| > |b.data|;
    }
  }

  /** From like states, the parser does with a line what the standard does if and only if the line conforms. */
  lemma ConformsIff(p: Pending, b: Buffers, line: string)
    requires Alike(p, b)
    ensures SameEffect(p, b, line) <==> Conforming(p, line)
  {
    hide SameEffect, Conforming, Alike;
    if line == "" {
      BlankLine(p, b);
    } else if "event:" <= line {
      NameLine(p, b, line);
    } else if "data:" <= line {
      DataLine(p, b, line);
    } else {
      OtherLine(p, b, line);
    }
  }

  // ----- whole texts -----

  /** Position of the first line end of either kind, or the length when there is none. */
  function LineEnd(s: string): (n: nat)
    ensures n <= |s|
    ensures n < |s| ==> s[n] == '\n' || s[n] == '\r'
    ensures forall i :: 0 <= i < n ==> s[i] != '\n' && s[i] != '\r'
  {
    if s == "" || s[0] == '\n' || s[0] == '\r' then 0 else 1 + LineEnd(s[1..])
  }

  /** The messages of a complete text; what follows the last line end is discarded. */
  function Dispatch(b: Buffers, s: string): seq<Message>
    decreases |s|
  {
    var n := LineEnd(s);
    if n == |s| then []
    else
      var next := if s[n] == '\r' && n + 1 < |s| && s[n + 1] == '\n' then n + 2 else n + 1;
      var (b1, ms) := Interpret(b, s[..n]);
      ms + Dispatch(b1, s[next..])
  }

  /** Carriage returns occur only just before a newline. */
  predicate CrOnlyBeforeLf(s: string) {
    forall i :: 0 <= i < |s| ==> BeforeLf(s, i)
  }

  predicate BeforeLf(s: string, i: nat)
    requires i < |s|
  {
    s[i] == '\r' ==> i + 1 < |s| && s[i + 1] == '\n'
  }

  /** Every line the parser takes conforms, given what it collected before. */
  predicate AllConforming(st: State)
    decreases |st.buffer|
  {
    var n := Newline(st.buffer);
    n == |st.buffer| ||
    (Conforming(st.pending, StripCr(st.buffer[..n])) && AllConforming(FirstLine(st).0))
  }

  /** Both cut the same first line, and the same rest. */
  lemma SameCut(s: string)
    requires CrOnlyBeforeLf(s) && Newline(s) < |s|
    ensures var n, m := Newline(s), LineEnd(s);
            && m < |s| && s[..m] == StripCr(s[..n])
            && n + 1 == (if s[m] == '\r' && m + 1 < |s| && s[m + 1] == '\n' then m + 2 else m + 1)
            && CrOnlyBeforeLf(s[n + 1..])
  {
    hide CrOnlyBeforeLf, StripCr, Newline, LineEnd;
    FirstEnd(s);
    RestCut(s, Newline(s) + 1);
    var n, m := Newline(s), LineEnd(s);
    StripOne(s[..n]);
    assert m <= n && s[..n][..m] == s[..m];
  }

  /** The first line end is the newline, or the carriage return just before it. */
  lemma FirstEnd(s: string)
    requires CrOnlyBeforeLf(s) && Newline(s) < |s|
    ensures var n, m := Newline(s), LineEnd(s);
            && m == (if n > 0 && s[n - 1] == '\r' then n - 1 else n)
            && (n > 1 ==> s[n - 2] != '\r')
  {
    var n, m := Newline(s), LineEnd(s);
    assert s[n] == '\n' && m <= n;
    assert m < n ==> BeforeLf(s, m);
    assert n > 0 ==> BeforeLf(s, n - 1);
    assert n > 1 ==> BeforeLf(s, n - 2);
  }

  lemma StripOne(line: string)
    requires |line| > 1 ==> line[|line| - 2] != '\r'
    ensures StripCr(line) == if line != "" && line[|line| - 1] == '\r' then line[..|line| - 1] else line
  {
  }

  lemma RestCut(s: string, k: nat)
    requires CrOnlyBeforeLf(s) && k <= |s|
    ensures CrOnlyBeforeLf(s[k..])
  {
    forall i | 0 <= i < |s[k..]| ensures BeforeLf(s[k..], i) {
      assert BeforeLf(s, k + i);
    }
  }

  lemma NoLineLeft(s: string)
    requires CrOnlyBeforeLf(s) && Newline(s) == |s|
    ensures LineEnd(s) == |s|
  {
    var m := LineEnd(s);
    assert m < |s| ==> BeforeLf(s, m);
  }

  lemma MessagesAppend(a: seq<Event>, b: seq<Event>)
    ensures Messages(a + b) == Messages(a) + Messages(b)
  {
  }

  lemma {:induction false} DrainDispatch(st: State, b: Buffers)
    requires CrOnlyBeforeLf(st.buffer) && Alike(st.pending, b) && AllConforming(st)
    ensures Messages(Drain(st).1) == Dispatch(b, st.buffer)
    decreases |st.buffer|
  {
    hide OnLine, StripCr, Interpret, Alike, Messages, CrOnlyBeforeLf, Conforming, Feed;
    MessagesAppend([], []);
    var n := Newline(st.buffer);
    if n == |st.buffer| {
      NoLineLeft(st.buffer);
      NoMessages();
    } else {
      SameCut(st.buffer);
      ConformsIff(st.pending, b, StripCr(st.buffer[..n]));
      var (s1, e1) := FirstLine(st);
      FeedFirst(st, "");
      DrainDispatch(s1, Interpret(b, StripCr(st.buffer[..n])).0);
      MessagesAppend(e1, Drain(s1).1);
    }
  }

  lemma NoMessages()
    ensures Messages([]) == []
  {
  }

  /**
   * On a text whose carriage returns all stand before newlines and whose lines all conform, the parser
   * emits, over any chunks, the messages the standard dispatches.
   */
  lemma StreamConforms(chunks: seq<string>)
    requires CrOnlyBeforeLf(Concat(chunks)) && AllConforming(State(Concat(chunks), NO_FIELDS))
    ensures Messages(FeedAll(FRESH, chunks).1) == Dispatch(Buffers("", ""), Concat(chunks))
  {
    ChunkIndependence(FRESH, chunks);
    assert "" + Concat(chunks) == Concat(chunks);
    DrainDispatch(State(Concat(chunks), NO_FIELDS), Buffers("", ""));
  }

  // ----- where they part -----

  /**
   * A name without data, data with two leading spaces, a trimmed name, and a field without a colon: lines
   * with which the parser does something else than the standard.
   */
  lemma NonConforming()
    ensures !Conforming(Pending([], Some("x")), "")
    ensures !Conforming(NO_FIELDS, "data:  x") && !Conforming(NO_FIELDS, "event: x ") && !Conforming(NO_FIELDS, "data")
  {
    TwoSpaces();
    SpaceAfter();
    assert "data"[0] != 'e' && !("data:" <= "data");
  }

  lemma TwoSpaces()
    ensures !Conforming(NO_FIELDS, "data:  x")
  {
    var line, v := "data:  x", "  x";
    assert line[0] == 'd' && "data:" <= line && line[5..] == v;
    assert v[1..] == " x" && " x"[1..] == "x";
    assert TrimStart(v) == TrimStart(" x") == TrimStart("x") == "x";
    assert |Unspaced(v)| == 2;
  }

  lemma SpaceAfter()
    ensures !Conforming(NO_FIELDS, "event: x ")
  {
    var line, v := "event: x ", " x ";
    assert "event:" <= line && line[6..] == v;
    assert v[1..] == "x " && "x "[..1] == "x";
    assert TrimStart(v) == TrimStart("x ") == "x ";
    assert TrimEnd("x ") == TrimEnd("x") == "x";
    assert |Unspaced(v)| == 2;
  }

  /** A carriage return that stands alone ends a line of the standard, and none of the parser. */
  lemma LoneCarriageReturn()
    ensures var text := "data:a\rb\n\n";
            && Messages(Drain(State(text, NO_FIELDS)).1) == [Message("", "a\rb")]
            && Dispatch(Buffers("", ""), text) == [Message("", "a")]
  {
    ParserReads();
    StandardReads();
  }

  lemma ParserReads()
    ensures Messages(Drain(State("data:a\rb\n\n", NO_FIELDS)).1) == [Message("", "a\rb")]
  {
    hide Drain;
    var line := "data:a\rb";
    assert "data:a\rb\n\n" == line + "\n" + "\n";
    DrainLine(State("data:a\rb\n\n", NO_FIELDS), line, "\n");
    assert line[0] == 'd' && "data:" <= line && line[5..] == "a\rb";
    assert TrimStart("a\rb") == "a\rb";
    var p := Pending(["a\rb"], None);
    assert [] + ["a\rb"] == ["a\rb"];
    assert OnLine(NO_FIELDS, line) == (p, []);
    assert "\n" == "" + "\n" + "";
    DrainLine(State("\n", p), "", "");
    assert OnLine(p, "") == (NO_FIELDS, [Event(None, "a\rb")]);
    DrainNothing();
  }

  lemma DrainNothing()
    ensures Drain(State("", NO_FIELDS)) == (State("", NO_FIELDS), [])
  {
  }

  lemma {:induction false} LineEndAt(line: string, end: char, rest: string)
    requires '\n' !in line && '\r' !in line && (end == '\n' || end == '\r')
    ensures LineEnd(line + [end] + rest) == |line|
    decreases |line|
  {
    var s := line + [end] + rest;
    if line != "" {
      assert s[1..] == line[1..] + [end] + rest;
      LineEndAt(line[1..], end, rest);
    }
  }

  lemma DispatchLine(b: Buffers, line: string, end: char, rest: string)
    requires '\n' !in line && '\r' !in line && (end == '\n' || (end == '\r' && (rest == "" || rest[0] != '\n')))
    ensures var (b1, ms) := Interpret(b, line); Dispatch(b, line + [end] + rest) == ms + Dispatch(b1, rest)
  {
    hide Interpret;
    LineEndAt(line, end, rest);
    var s := line + [end] + rest;
    assert s[..|line|] == line && s[|line| + 1..] == rest && s[|line|] == end;
    assert rest != "" ==> s[|line| + 1] == rest[0];
  }

  lemma StandardReads()
    ensures Dispatch(Buffers("", ""), "data:a\rb\n\n") == [Message("", "a")]
  {
    hide Dispatch, Interpret;
    assert "data:a\rb\n\n" == "data:a" + ['\r'] + "b\n\n";
    DispatchLine(Buffers("", ""), "data:a", '\r', "b\n\n");
    assert "data:a" == "data:" + "a";
    InterpretData(Buffers("", ""), "a");
    var b := Buffers("a\n", "");
    assert "" + "a" + "\n" == "a\n";
    assert "b\n\n" == "b" + ['\n'] + "\n";
    DispatchLine(b, "b", '\n', "\n");
    InterpretEnds(b);
    assert "\n" == "" + ['\n'] + "";
    DispatchLine(b, "", '\n', "");
    NothingDispatched();
  }

  lemma InterpretData(b: Buffers, v: string)
    ensures Interpret(b, "data:" + v) == (b.(data := b.data + Unspaced(v) + "\n"), [])
  {
    var line := "data:" + v;
    ColonAt(line, "data");
    assert line[5..] == v && "data"[0] != "event"[0];
  }

  lemma InterpretEnds(b: Buffers)
    requires b == Buffers("a\n", "")
    ensures Interpret(b, "b") == (b, []) && Interpret(b, "") == (Buffers("", ""), [Message("", "a")])
  {
    assert "b"[1..] == "" && Colon("b") == 1;
    assert "b"[0] != 'e' && "b"[0] != 'd';
    assert "a\n"[..1] == "a";
  }

  lemma NothingDispatched()
    ensures Dispatch(Buffers("", ""), "") == []
  {
  }
}
