/**
 * Whole streams beside section 9.2.6 of the WHATWG HTML standard: the parser emits what the standard
 * dispatches, at every moment, exactly when each block of lines passes a test on its text.
 */
module EventBlocks {
  import opened Core
  import opened Text
  import opened Sse
  import opened EventStandard

  // ----- lines -----

  /** The complete lines of a text, without the carriage returns at their ends. */
  function Lines(s: string): seq<string>
    decreases |s|
  {
    var n := Newline(s);
    if n == |s| then [] else [StripCr(s[..n])] + Lines(s[n + 1..])
  }

  function ReadAll(p: Pending, lines: seq<string>): (Pending, seq<Event>)
    decreases |lines|
  {
    if lines == [] then (p, [])
    else
      var last := |lines| - 1;
      var (p1, e1) := ReadAll(p, lines[..last]);
      var (p2, e2) := OnLine(p1, lines[last]);
      (p2, e1 + e2)
  }

  function InterpretAll(b: Buffers, lines: seq<string>): (Buffers, seq<Message>)
    decreases |lines|
  {
    if lines == [] then (b, [])
    else
      var last := |lines| - 1;
      var (b1, m1) := InterpretAll(b, lines[..last]);
      var (b2, m2) := Interpret(b1, lines[last]);
      (b2, m1 + m2)
  }

  lemma {:induction false} ReadCons(p: Pending, line: string, lines: seq<string>)
    ensures var (p1, e1) := OnLine(p, line);
            var (p2, e2) := ReadAll(p1, lines);
            ReadAll(p, [line] + lines) == (p2, e1 + e2)
    decreases |lines|
  {
    hide OnLine;
    var all := [line] + lines;
    if lines == [] {
      assert all == [line] && all[..0] == [];
      assert [] + OnLine(p, line).1 == OnLine(p, line).1 + [];
    } else {
      var last := |lines| - 1;
      assert all[..|all| - 1] == [line] + lines[..last] && all[|all| - 1] == lines[last];
      ReadCons(p, line, lines[..last]);
      var (p1, e1) := OnLine(p, line);
      var (p2, e2) := ReadAll(p1, lines[..last]);
      Assoc(e1, e2, OnLine(p2, lines[last]).1);
    }
  }

  lemma {:induction false} InterpretCons(b: Buffers, line: string, lines: seq<string>)
    ensures var (b1, m1) := Interpret(b, line);
            var (b2, m2) := InterpretAll(b1, lines);
            InterpretAll(b, [line] + lines) == (b2, m1 + m2)
    decreases |lines|
  {
    hide Interpret;
    var all := [line] + lines;
    if lines == [] {
      assert all == [line] && all[..0] == [];
      assert [] + Interpret(b, line).1 == Interpret(b, line).1 + [];
    } else {
      var last := |lines| - 1;
      assert all[..|all| - 1] == [line] + lines[..last] && all[|all| - 1] == lines[last];
      InterpretCons(b, line, lines[..last]);
      var (b1, m1) := Interpret(b, line);
      var (b2, m2) := InterpretAll(b1, lines[..last]);
      Assoc(m1, m2, Interpret(b2, lines[last]).1);
    }
  }

  /** The parser reads a text line by line. */
  lemma {:induction false} DrainLines(st: State)
    ensures Drain(st).1 == ReadAll(st.pending, Lines(st.buffer)).1
    decreases |st.buffer|
  {
    hide OnLine, StripCr, Feed, ReadAll;
    NothingRead(st.pending, NO_BUFFERS);
    if Newline(st.buffer) < |st.buffer| {
      var n := Newline(st.buffer);
      var s1 := FirstLine(st).0;
      DrainFirst(st);
      DrainLines(s1);
      ReadCons(st.pending, StripCr(st.buffer[..n]), Lines(st.buffer[n + 1..]));
    }
  }

  const NO_BUFFERS := Buffers("", "")

  lemma NothingRead(p: Pending, b: Buffers)
    ensures ReadAll(p, []) == (p, []) && InterpretAll(b, []) == (b, [])
  {
  }

  /** So does the standard, where carriage returns occur only before newlines. */
  lemma {:induction false} DispatchLines(b: Buffers, s: string)
    requires CrOnlyBeforeLf(s)
    ensures Dispatch(b, s) == InterpretAll(b, Lines(s)).1
    decreases |s|
  {
    hide Interpret, StripCr, InterpretAll, CrOnlyBeforeLf;
    NothingRead(NO_FIELDS, b);
    var n := Newline(s);
    if n == |s| {
      NoLineLeft(s);
    } else {
      SameCut(s);
      DispatchLines(Interpret(b, StripCr(s[..n])).0, s[n + 1..]);
      InterpretCons(b, StripCr(s[..n]), Lines(s[n + 1..]));
    }
  }

  // ----- the fields of a block -----

  ghost predicate NoBlank(lines: seq<string>) {
    forall i :: 0 <= i < |lines| ==> lines[i] != ""
  }

  ghost predicate OneLiners(lines: seq<string>) {
    forall i :: 0 <= i < |lines| ==> '\n' !in lines[i]
  }

  /** The data lines as the parser reads them. */
  function ReadData(lines: seq<string>): seq<string>
    decreases |lines|
  {
    if lines == [] then []
    else
      var line := lines[|lines| - 1];
      ReadData(lines[..|lines| - 1]) + if "data:" <= line then [TrimStart(line[5..])] else []
  }

  /** The data lines as the standard means them: a field without a colon has an empty value. */
  function MeantData(lines: seq<string>): seq<string>
    decreases |lines|
  {
    if lines == [] then []
    else
      var line := lines[|lines| - 1];
      MeantData(lines[..|lines| - 1])
      + if "data:" <= line then [Unspaced(line[5..])] else if line == "data" then [""] else []
  }

  /** The last name as the parser reads it. */
  function ReadName(lines: seq<string>): Option<string>
    decreases |lines|
  {
    if lines == [] then None
    else
      var line := lines[|lines| - 1];
      if "event:" <= line then Some(Trim(line[6..])) else ReadName(lines[..|lines| - 1])
  }

  /** The last event type as the standard means it. */
  function MeantType(lines: seq<string>): string
    decreases |lines|
  {
    if lines == [] then ""
    else
      var line := lines[|lines| - 1];
      if "event:" <= line then Unspaced(line[6..])
      else if line == "event" then ""
      else MeantType(lines[..|lines| - 1])
  }

  lemma NotBoth(line: string)
    requires "event:" <= line
    ensures !("data:" <= line) && line != "data" && line != "event"
  {
    assert line[0] == 'e' && "data:"[0] == 'd' && "data"[0] == 'd';
    assert |line| >= 6;
  }

  lemma ReadLine(p: Pending, line: string)
    requires line != ""
    ensures OnLine(p, line)
            == (Pending(p.dataLines + (if "data:" <= line then [TrimStart(line[5..])] else []),
                        if "event:" <= line then Some(Trim(line[6..])) else p.eventName), [])
  {
    hide TrimStart, Trim;
    if "event:" <= line {
      NotBoth(line);
    }
    assert p.dataLines + [] == p.dataLines;
  }

  lemma MeantLine(b: Buffers, line: string)
    requires line != ""
    ensures Interpret(b, line)
            == (Buffers(if "data:" <= line then b.data + Unspaced(line[5..]) + "\n"
                        else if line == "data" then b.data + "" + "\n" else b.data,
                        if "event:" <= line then Unspaced(line[6..]) else if line == "event" then "" else b.eventType),
                [])
  {
    hide Unspaced;
    if "event:" <= line {
      NotBoth(line);
      ColonAt(line, "event");
    } else if "data:" <= line {
      DataInterpreted(b, line);
      assert line[0] == 'd' && "event"[0] == 'e';
    } else {
      PlainFields(b, line);
    }
  }

  lemma PlainFields(b: Buffers, line: string)
    requires line != "" && !("event:" <= line) && !("data:" <= line)
    ensures Interpret(b, line)
            == (Buffers(if line == "data" then b.data + "" + "\n" else b.data,
                        if line == "event" then "" else b.eventType), [])
  {
    hide Unspaced;
    var n := Colon(line);
    if n < |line| {
      assert line[..n + 1] == line[..n] + ":";
      assert ':' !in "data" && ':' !in "event";
    } else {
      assert "data"[0] != "event"[0];
    }
  }

  /** After a block the parser has collected what `ReadData` and `ReadName` say. */
  lemma {:induction false} ReadBlock(lines: seq<string>)
    requires NoBlank(lines)
    ensures ReadAll(NO_FIELDS, lines) == (Pending(ReadData(lines), ReadName(lines)), [])
    decreases |lines|
  {
    hide OnLine, TrimStart, Trim;
    if lines != [] {
      var last := |lines| - 1;
      var p := Pending(ReadData(lines[..last]), ReadName(lines[..last]));
      ReadBlock(lines[..last]);
      ReadLine(p, lines[last]);
      assert ReadAll(NO_FIELDS, lines).1 == [];
    } else {
      assert ReadAll(NO_FIELDS, lines) == (Pending([], None), []);
    }
  }

  lemma BufferSnoc(lines: seq<string>, x: string)
    ensures DataBuffer(lines + [x]) == DataBuffer(lines) + x + "\n"
  {
    assert (lines + [x])[..|lines|] == lines;
  }

  lemma {:induction false} InterpretBlock(lines: seq<string>)
    requires NoBlank(lines)
    ensures InterpretAll(NO_BUFFERS, lines) == (Buffers(DataBuffer(MeantData(lines)), MeantType(lines)), [])
    decreases |lines|
  {
    hide Interpret, Unspaced, DataBuffer;
    if lines == [] {
      NothingBuffered();
    } else {
      var last := |lines| - 1;
      var line := lines[last];
      var meant := MeantData(lines[..last]);
      InterpretBlock(lines[..last]);
      MeantLine(Buffers(DataBuffer(meant), MeantType(lines[..last])), line);
      BufferSnoc(meant, Unspaced(line[if "data:" <= line then 5 else 0..]));
      BufferSnoc(meant, "");
      assert meant + [] == meant;
    }
  }

  lemma NothingBuffered()
    ensures DataBuffer([]) == ""
  {
  }

  // ----- what a blank line dispatches -----

  /** What a reader can tell from the lines of a block: both dispatch nothing, or both the same. */
  predicate BlockConforms(lines: seq<string>) {
    var read, meant := ReadData(lines), MeantData(lines);
    if read == [] && ReadName(lines).None? then meant == []
    else
      && (read == meant || (read == [] && meant == [""])) && meant != []
      && TypeOf(ReadName(lines)) == MeantType(lines)
  }

  lemma {:induction false} DataOneLiners(lines: seq<string>)
    requires OneLiners(lines)
    ensures OneLiners(ReadData(lines)) && OneLiners(MeantData(lines))
    decreases |lines|
  {
    if lines != [] {
      var last := |lines| - 1;
      var line := lines[last];
      DataOneLiners(lines[..last]);
      if "data:" <= line {
        var k := TrimStartSuffix(line[5..]);
        assert forall i :: 0 <= i < |line| ==> line[i] != '\n';
      }
    }
  }

  /** Lists of lines read the same joined only if they are the same, or one is empty and the other an empty line. */
  lemma SameJoin(a: seq<string>, b: seq<string>)
    requires OneLiners(a) && OneLiners(b) && b != []
    ensures Join(a) == Join(b) <==> a == b || (a == [] && b == [""])
  {
    SplitLines(b);
    if a == [] {
      NoNewline("");
    } else {
      SplitLines(a);
    }
  }

  lemma BlockIff(lines: seq<string>)
    requires NoBlank(lines) && OneLiners(lines)
    ensures Messages(OnLine(ReadAll(NO_FIELDS, lines).0, "").1) == Interpret(InterpretAll(NO_BUFFERS, lines).0, "").1
            <==> BlockConforms(lines)
  {
    ReadBlock(lines);
    InterpretBlock(lines);
    DataOneLiners(lines);
    hide ReadAll, InterpretAll, ReadData, MeantData, ReadName, MeantType;
    BlankIff(ReadData(lines), ReadName(lines), MeantData(lines), MeantType(lines));
  }

  lemma BlankIff(read: seq<string>, name: Option<string>, meant: seq<string>, eventType: string)
    requires OneLiners(read) && OneLiners(meant)
    ensures Messages(OnLine(Pending(read, name), "").1) == Interpret(Buffers(DataBuffer(meant), eventType), "").1
            <==> if read == [] && name.None? then meant == []
                 else (read == meant || (read == [] && meant == [""])) && meant != [] && TypeOf(name) == eventType
  {
    hide Join;
    BufferJoin(meant);
    if meant != [] {
      SameJoin(read, meant);
      assert DataBuffer(meant)[..|DataBuffer(meant)| - 1] == Join(meant);
    } else {
      NothingBuffered();
    }
    hide DataBuffer, OneLiners;
    if read != [] || name.Some? {
      assert Messages([Event(name, Join(read))]) == [Message(TypeOf(name), Join(read))];
    } else {
      NoMessages();
    }
  }

  // ----- every moment of a stream -----

  /** The lines since the last blank one before line `k`. */
  function Block(lines: seq<string>, k: nat): seq<string>
    requires k <= |lines|
  {
    if k == 0 || lines[k - 1] == "" then [] else Block(lines, k - 1) + [lines[k - 1]]
  }

  lemma {:induction false} BlockLines(lines: seq<string>, k: nat)
    requires k <= |lines| && OneLiners(lines)
    ensures NoBlank(Block(lines, k)) && OneLiners(Block(lines, k))
    decreases k
  {
    if k > 0 && lines[k - 1] != "" {
      BlockLines(lines, k - 1);
    }
  }

  lemma ReadSnoc(p: Pending, lines: seq<string>, x: string)
    ensures var (p1, e1) := ReadAll(p, lines);
            ReadAll(p, lines + [x]) == (OnLine(p1, x).0, e1 + OnLine(p1, x).1)
  {
    hide OnLine;
    assert (lines + [x])[..|lines|] == lines;
  }

  lemma InterpretSnoc(b: Buffers, lines: seq<string>, x: string)
    ensures var (b1, m1) := InterpretAll(b, lines);
            InterpretAll(b, lines + [x]) == (Interpret(b1, x).0, m1 + Interpret(b1, x).1)
  {
    hide Interpret;
    assert (lines + [x])[..|lines|] == lines;
  }

  lemma BlankResets(p: Pending, b: Buffers)
    ensures OnLine(p, "").0 == NO_FIELDS && Interpret(b, "").0 == NO_BUFFERS
  {
  }

  /** Only the lines of the current block are still in the state. */
  lemma {:induction false} BlockState(lines: seq<string>, k: nat)
    requires k <= |lines|
    ensures ReadAll(NO_FIELDS, lines[..k]).0 == ReadAll(NO_FIELDS, Block(lines, k)).0
    ensures InterpretAll(NO_BUFFERS, lines[..k]).0 == InterpretAll(NO_BUFFERS, Block(lines, k)).0
    decreases k
  {
    hide OnLine, Interpret, ReadAll, InterpretAll;
    if k == 0 {
      assert lines[..0] == [];
    } else {
      var x := lines[k - 1];
      assert lines[..k] == lines[..k - 1] + [x];
      ReadSnoc(NO_FIELDS, lines[..k - 1], x);
      InterpretSnoc(NO_BUFFERS, lines[..k - 1], x);
      if x == "" {
        BlankResets(ReadAll(NO_FIELDS, lines[..k - 1]).0, InterpretAll(NO_BUFFERS, lines[..k - 1]).0);
        NothingRead(NO_FIELDS, NO_BUFFERS);
      } else {
        BlockState(lines, k - 1);
        ReadSnoc(NO_FIELDS, Block(lines, k - 1), x);
        InterpretSnoc(NO_BUFFERS, Block(lines, k - 1), x);
      }
    }
  }

  /** Up to line `k` the parser has emitted what the standard has dispatched. */
  predicate SameSoFar(lines: seq<string>, k: nat)
    requires k <= |lines|
  {
    Messages(ReadAll(NO_FIELDS, lines[..k]).1) == InterpretAll(NO_BUFFERS, lines[..k]).1
  }

  lemma SuffixSame<T>(a: seq<T>, x: seq<T>, y: seq<T>)
    ensures a + x == a + y <==> x == y
  {
    if a + x == a + y {
      assert (a + x)[|a|..] == x && (a + y)[|a|..] == y;
    }
  }

  /** The next line keeps them together exactly when it ends no block, or one that conforms. */
  lemma SameNext(lines: seq<string>, k: nat)
    requires k < |lines| && OneLiners(lines) && SameSoFar(lines, k)
    ensures SameSoFar(lines, k + 1) <==> (lines[k] == "" ==> BlockConforms(Block(lines, k)))
  {
    var x := lines[k];
    assert lines[..k + 1] == lines[..k] + [x];
    var p, b := ReadAll(NO_FIELDS, lines[..k]).0, InterpretAll(NO_BUFFERS, lines[..k]).0;
    ReadSnoc(NO_FIELDS, lines[..k], x);
    InterpretSnoc(NO_BUFFERS, lines[..k], x);
    MessagesAppend(ReadAll(NO_FIELDS, lines[..k]).1, OnLine(p, x).1);
    SuffixSame(InterpretAll(NO_BUFFERS, lines[..k]).1, Messages(OnLine(p, x).1), Interpret(b, x).1);
    hide ReadAll, InterpretAll, OnLine, Interpret, Messages, BlockConforms;
    if x == "" {
      BlockState(lines, k);
      BlockLines(lines, k);
      BlockIff(Block(lines, k));
    } else {
      ReadLine(p, x);
      MeantLine(b, x);
      NoMessages();
    }
  }

  lemma SameAtFirst(lines: seq<string>)
    ensures SameSoFar(lines, 0)
  {
  }

  lemma {:induction false} SameUpTo(lines: seq<string>, k: nat)
    requires k <= |lines| && OneLiners(lines)
    ensures (forall j | 0 <= j <= k :: SameSoFar(lines, j))
            <==> forall j | 0 <= j < k && lines[j] == "" :: BlockConforms(Block(lines, j))
    decreases k
  {
    hide SameSoFar, BlockConforms, Block;
    if k == 0 {
      SameAtFirst(lines);
    } else {
      SameUpTo(lines, k - 1);
      if SameSoFar(lines, k - 1) {
        SameNext(lines, k - 1);
      }
    }
  }

  lemma {:induction false} LinesOne(s: string)
    ensures OneLiners(Lines(s))
    decreases |s|
  {
    hide StripCr;
    var n := Newline(s);
    if n < |s| {
      StripCrPrefix(s[..n]);
      LinesOne(s[n + 1..]);
      assert '\n' !in s[..n];
    }
  }

  /**
   * Of a text whose carriage returns all stand before newlines, the parser has emitted after each line
   * what the standard has dispatched by then, if and only if every block that a blank line ends conforms.
   */
  lemma StreamIff(text: string)
    requires CrOnlyBeforeLf(text)
    ensures var lines := Lines(text);
            && Drain(State(text, NO_FIELDS)).1 == ReadAll(NO_FIELDS, lines).1
            && Dispatch(NO_BUFFERS, text) == InterpretAll(NO_BUFFERS, lines).1
            && ((forall k | 0 <= k <= |lines| :: SameSoFar(lines, k))
                <==> forall k | 0 <= k < |lines| && lines[k] == "" :: BlockConforms(Block(lines, k)))
  {
    hide Drain, Dispatch, Lines, ReadAll, InterpretAll, SameSoFar, BlockConforms, Block, CrOnlyBeforeLf;
    DrainLines(State(text, NO_FIELDS));
    DispatchLines(NO_BUFFERS, text);
    LinesOne(text);
    SameUpTo(Lines(text), |Lines(text)|);
  }
}
