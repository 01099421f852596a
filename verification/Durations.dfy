/** The duration strings of state definitions ("30s", "2h30m"): parser, grammar, and their agreement. */
module Durations {
  import opened Core
  import opened Text

  datatype DurationError =
    | EmptyString
    | UnexpectedChar(c: char)
    | InvalidNumber
    | UnknownUnit(c: char)
    | MissingUnit
    | ZeroDuration

  /** `n` units of kind `c` in seconds, when `c` is a unit. */
  function Amount(n: nat, c: char): Option<nat> {
    match c
    case 's' => Some(n)
    case 'm' => Some(n * 60)
    case 'h' => Some(n * 3600)
    case 'd' => Some(n * 86400)
    case _ => None
  }

  predicate IsUnit(c: char) {
    c in {'s', 'm', 'h', 'd'}
  }

  /** `u64` addition as a release build performs it. */
  function Wrap(x: nat): nat {
    x % U64
  }

  // ----- the grammar -----

  /** One "number unit" group. */
  datatype Group = Group(digits: string, unit: char)

  predicate WellFormed(g: Group) {
    g.digits != "" && AllDigits(g.digits) && Decimal(g.digits) < U64 && IsUnit(g.unit)
  }

  predicate AllWellFormed(gs: seq<Group>) {
    forall i :: 0 <= i < |gs| ==> WellFormed(gs[i])
  }

  function Print(gs: seq<Group>): string {
    if gs == [] then "" else gs[0].digits + [gs[0].unit] + Print(gs[1..])
  }

  function Seconds(gs: seq<Group>): nat
    requires AllWellFormed(gs)
  {
    if gs == [] then 0
    else Amount(Decimal(gs[0].digits), gs[0].unit).value + Seconds(gs[1..])
  }

  /** `s` spells the non-empty group sequence `gs`. */
  ghost predicate Spells(s: string, gs: seq<Group>) {
    gs != [] && AllWellFormed(gs) && s == Print(gs)
  }

  // ----- the parser -----

  /** What the character loop answers from a pending number, a running total and the rest of the input. */
  function Scan(num: string, total: nat, s: string): Result<nat, DurationError>
    requires AllDigits(num)
    decreases |s|
  {
    if s == "" then
      if num != "" then Err(MissingUnit)
      else if total == 0 then Err(ZeroDuration)
      else Ok(total)
    else if IsDigit(s[0]) then Scan(num + [s[0]], total, s[1..])
    else if num == "" then Err(UnexpectedChar(s[0]))
    else if Decimal(num) >= U64 then Err(InvalidNumber)
    else match Amount(Decimal(num), s[0])
      case None => Err(UnknownUnit(s[0]))
      case Some(seconds) => Scan("", Wrap(total + seconds), s[1..])
  }

  function Parse(s: string): Result<nat, DurationError> {
    var t := Trim(s);
    if t == "" then Err(EmptyString) else Scan("", 0, t)
  }

  method ParseDuration(s: string) returns (r: Result<nat, DurationError>)
    ensures r == Parse(s)
  {
    var t := Trim(s);
    if t == "" {
      return Err(EmptyString);
    }
    var totalSecs := 0;
    var currentNum := "";
    for k := 0 to |t|
      invariant AllDigits(currentNum)
      invariant 0 <= totalSecs < U64
      invariant Scan(currentNum, totalSecs, t[k..]) == Scan("", 0, t)
    {
      var ch := t[k];
      assert t[k..][1..] == t[k + 1..];
      if IsDigit(ch) {
        currentNum := currentNum + [ch];
      } else {
        if currentNum == "" {
          return Err(UnexpectedChar(ch));
        }
        var n := Decimal(currentNum);
        if n >= U64 {
          return Err(InvalidNumber);
        }
        currentNum := "";
        match ch {
          case 's' => totalSecs := Wrap(totalSecs + n);
          case 'm' => totalSecs := Wrap(totalSecs + n * 60);
          case 'h' => totalSecs := Wrap(totalSecs + n * 3600);
          case 'd' => totalSecs := Wrap(totalSecs + n * 86400);
          case _ => return Err(UnknownUnit(ch));
        }
      }
    }
    if currentNum != "" {
      return Err(MissingUnit);
    }
    if totalSecs == 0 {
      return Err(ZeroDuration);
    }
    return Ok(totalSecs);
  }

  // ----- agreement of parser and grammar -----

  lemma WrapAdd(a: nat, b: nat)
    ensures Wrap(Wrap(a) + b) == Wrap(a + b)
  {
  }

  lemma WrapWrap(a: nat, b: nat, c: nat)
    ensures Wrap(Wrap(a + b) + c) == Wrap(a + (b + c))
    ensures Wrap(a) < U64
    ensures Wrap(Wrap(a) + Wrap(b)) == Wrap(a + b)
  {
    assert Wrap(a) < U64;
    hide Wrap;
    WrapAdd(a + b, c);
    WrapAdd(a, Wrap(b));
    WrapAdd(b, a);
  }

  /** The answer for an exact total of `seconds`. */
  function Answer(seconds: nat): Result<nat, DurationError> {
    if Wrap(seconds) == 0 then Err(ZeroDuration) else Ok(Wrap(seconds))
  }

  lemma AnswerWrap(a: nat, b: nat)
    ensures Answer(Wrap(a) + b) == Answer(a + b)
  {
    WrapWrap(a, 0, b);
  }

  /** A run of digits only extends the pending number. */
  lemma {:induction false} ScanDigits(num: string, total: nat, digits: string, rest: string)
    requires AllDigits(num) && AllDigits(digits)
    ensures AllDigits(num + digits)
    ensures Scan(num, total, digits + rest) == Scan(num + digits, total, rest)
    decreases |digits|
  {
    if digits == "" {
      assert digits + rest == rest && num + digits == num;
    } else {
      var s := digits + rest;
      assert s[0] == digits[0] && s[1..] == digits[1..] + rest;
      ScanDigits(num + [digits[0]], total, digits[1..], rest);
      assert num + [digits[0]] + digits[1..] == num + digits;
    }
  }

  lemma ScanGroup(total: nat, g: Group, rest: string)
    requires WellFormed(g)
    ensures Scan("", total, g.digits + [g.unit] + rest)
            == Scan("", Wrap(total + Amount(Decimal(g.digits), g.unit).value), rest)
  {
    hide Scan, Decimal, Wrap;
    var tail := [g.unit] + rest;
    assert g.digits + [g.unit] + rest == g.digits + tail;
    assert "" + g.digits == g.digits;
    ScanDigits("", total, g.digits, tail);
    ScanUnit(total, g, rest);
  }

  lemma ScanUnit(total: nat, g: Group, rest: string)
    requires WellFormed(g)
    ensures Scan(g.digits, total, [g.unit] + rest)
            == Scan("", Wrap(total + Amount(Decimal(g.digits), g.unit).value), rest)
  {
    hide Decimal, Wrap;
    assert ([g.unit] + rest)[1..] == rest;
  }

  /** The parser accepts every printed group sequence, with the sum of its groups modulo 2^64. */
  lemma {:induction false} ScanPrint(total: nat, gs: seq<Group>)
    requires AllWellFormed(gs) && total < U64
    ensures Scan("", total, Print(gs)) == Answer(total + Seconds(gs))
    decreases |gs|
  {
    hide Scan, Answer, Wrap, Decimal;
    if gs == [] {
      ScanNothing(total);
    } else {
      var g := gs[0];
      assert Print(gs) == g.digits + [g.unit] + Print(gs[1..]);
      var sum := total + Amount(Decimal(g.digits), g.unit).value;
      WrapWrap(sum, 0, 0);
      ScanGroup(total, g, Print(gs[1..]));
      AnswerWrap(sum, Seconds(gs[1..]));
      ScanPrint(Wrap(sum), gs[1..]);
    }
  }

  lemma ScanNothing(total: nat)
    requires total < U64
    ensures Scan("", total, "") == Answer(total)
  {
  }

  lemma PrintCons(num: string, s: string, rest: seq<Group>)
    requires s != "" && s[1..] == Print(rest)
    ensures Print([Group(num, s[0])] + rest) == num + s
  {
    var gs := [Group(num, s[0])] + rest;
    assert gs[1..] == rest;
    assert num + s == num + [s[0]] + s[1..];
  }

  lemma PrintNothing()
    ensures Print([]) == ""
  {
  }

  /** The first character of `s` moved to the end of `num`. */
  lemma Shift(num: string, s: string)
    requires s != ""
    ensures num + [s[0]] + s[1..] == num + s && "" + s[1..] == s[1..]
  {
  }

  /** Whatever the parser accepts is a printed group sequence, which the lemma returns. */
  lemma {:induction false} ScanGroups(num: string, total: nat, s: string) returns (gs: seq<Group>)
    requires AllDigits(num)
    requires Scan(num, total, s).Ok?
    ensures AllWellFormed(gs) && num + s == Print(gs)
    decreases |s|
  {
    hide Decimal, Wrap, Print;
    PrintNothing();
    if s == "" {
      gs := [];
    } else {
      Shift(num, s);
      if IsDigit(s[0]) {
        gs := ScanGroups(num + [s[0]], total, s[1..]);
      } else {
        var rest := ScanGroups("", Wrap(total + Amount(Decimal(num), s[0]).value), s[1..]);
        gs := [Group(num, s[0])] + rest;
        PrintCons(num, s, rest);
      }
    }
  }

  /** A printed group sequence starts with a digit and ends with a unit, so trimming keeps it. */
  lemma {:induction false} PrintTrimmed(gs: seq<Group>)
    requires gs != [] && AllWellFormed(gs)
    ensures Print(gs) != "" && IsDigit(Print(gs)[0]) && IsUnit(Print(gs)[|Print(gs)| - 1])
    ensures Trim(Print(gs)) == Print(gs)
    decreases |gs|
  {
    if |gs| > 1 {
      PrintTrimmed(gs[1..]);
    }
    TrimIsTrimmed(Print(gs));
  }

  lemma SpelledAnswer(s: string, gs: seq<Group>)
    requires Spells(Trim(s), gs)
    ensures Parse(s) == Answer(Seconds(gs))
  {
    PrintTrimmed(gs);
    ScanPrint(0, gs);
  }

  lemma AcceptedSpelling(s: string) returns (gs: seq<Group>)
    requires Parse(s).Ok?
    ensures Spells(Trim(s), gs)
  {
    gs := ScanGroups("", 0, Trim(s));
    assert "" + Trim(s) == Trim(s);
  }

  /**
   * The parser accepts exactly the trimmed strings that spell groups whose total is not 0
   * modulo 2^64, and its answer is that total.
   */
  lemma ParseIffGrammar(s: string, v: nat)
    ensures Parse(s) == Ok(v) <==>
            exists gs :: Spells(Trim(s), gs) && Answer(Seconds(gs)) == Ok(v)
  {
    if Parse(s) == Ok(v) {
      var gs := AcceptedSpelling(s);
      SpelledAnswer(s, gs);
    }
    if gs :| Spells(Trim(s), gs) && Answer(Seconds(gs)) == Ok(v) {
      SpelledAnswer(s, gs);
    }
  }

  lemma {:induction false} PrintAppend(a: seq<Group>, b: seq<Group>)
    requires AllWellFormed(a) && AllWellFormed(b)
    ensures AllWellFormed(a + b)
    ensures Print(a + b) == Print(a) + Print(b)
    ensures Seconds(a + b) == Seconds(a) + Seconds(b)
    decreases |a|
  {
    hide Decimal, Amount, IsUnit;
    if a == [] {
      assert a + b == b;
    } else {
      assert (a + b)[1..] == a[1..] + b;
      PrintAppend(a[1..], b);
      assert Print(a) + Print(b) == a[0].digits + [a[0].unit] + (Print(a[1..]) + Print(b));
    }
  }

  /** Writing two accepted, untrimmed strings after each other adds their durations. */
  lemma ParseAdditive(a: string, b: string)
    requires Trim(a) == a && Trim(b) == b
    requires Parse(a).Ok? && Parse(b).Ok?
    ensures Parse(a + b) == Answer(Parse(a).value + Parse(b).value)
  {
    var x := AcceptedSpelling(a);
    var y := AcceptedSpelling(b);
    SpelledAnswer(a, x);
    SpelledAnswer(b, y);
    PrintAppend(x, y);
    PrintTrimmed(x + y);
    SpelledAnswer(a + b, x + y);
    WrapWrap(Seconds(x), Seconds(y), 0);
  }

  // ----- units -----

  /** A unit and the seconds it stands for. */
  predicate UnitOf(unit: char, seconds: nat) {
    || (unit == 's' && seconds == 1)
    || (unit == 'm' && seconds == 60)
    || (unit == 'h' && seconds == 60 * 60)
    || (unit == 'd' && seconds == 24 * 60 * 60)
  }

  /** `n` seconds, minutes, hours or days are that many seconds, as long as these fit in a `u64`. */
  lemma UnitsParse(n: nat, unit: char, seconds: nat)
    requires 1 <= n && n * seconds < 0x1_0000_0000_0000_0000 && UnitOf(unit, seconds)
    ensures Parse(Render(n) + [unit]) == Ok(n * seconds)
  {
    RenderDecimal(n);
    hide Render, Decimal, Parse, Amount;
    var g := Group(Render(n), unit);
    UnitAmount(n, unit, seconds);
    assert [g][1..] == [];
    assert Print([g]) == Render(n) + [unit];
    assert Seconds([g]) == n * seconds;
    PrintTrimmed([g]);
    SpelledAnswer(Render(n) + [unit], [g]);
  }

  lemma UnitAmount(n: nat, unit: char, seconds: nat)
    requires UnitOf(unit, seconds) && 1 <= n
    ensures Amount(n, unit) == Some(n * seconds) && n <= n * seconds
  {
  }

  lemma SomeDecimals()
    ensures Decimal("2") == 2 && Decimal("5") == 5 && Decimal("30") == 30
  {
    assert "2"[..0] == "" && "5"[..0] == "" && "3"[..0] == "" && "30"[..1] == "3";
    assert Decimal("3") == 3;
  }

  /** Two of the texts that definitions use. */
  lemma SomeTexts()
    ensures Parse("5m") == Ok(300) && Parse("2h30m") == Ok(9000)
  {
    hide Decimal, Parse, Spells;
    SomeDecimals();
    GroupText("", "5", 'm', []);
    GroupText("", "30", 'm', []);
    GroupText("30m", "2", 'h', [Group("30", 'm')]);
    assert "5" + ['m'] + "" == "5m" && "30" + ['m'] + "" == "30m" && "2" + ['h'] + "30m" == "2h30m";
    SpelledText("5m", [Group("5", 'm')] + []);
    SpelledText("2h30m", [Group("2", 'h')] + [Group("30", 'm')]);
    assert [Group("30", 'm')] + [] == [Group("30", 'm')];
  }

  /** One more group in front. */
  lemma GroupText(rest: string, digits: string, unit: char, gs: seq<Group>)
    requires WellFormed(Group(digits, unit)) && AllWellFormed(gs) && rest == Print(gs)
    ensures var more := [Group(digits, unit)] + gs;
            && Spells(digits + [unit] + rest, more) && AllWellFormed(more)
            && Seconds(more) == Amount(Decimal(digits), unit).value + Seconds(gs)
  {
    hide Decimal;
    assert ([Group(digits, unit)] + gs)[1..] == gs;
  }

  lemma SpelledText(s: string, gs: seq<Group>)
    requires Spells(s, gs)
    ensures Parse(s) == Answer(Seconds(gs))
  {
    hide Decimal, Parse;
    PrintTrimmed(gs);
    SpelledAnswer(s, gs);
  }

  // ----- errors -----

  /**
   * `t` goes wrong with error `e` after the groups `gs`: at a unit without a number, at a number without a
   * unit, at a number too large, at an unknown unit; or it is right but adds up to zero; or there is nothing.
   */
  ghost predicate FailsAfter(t: string, gs: seq<Group>, digits: string, rest: string, e: DurationError) {
    && AllWellFormed(gs) && AllDigits(digits) && t == Print(gs) + digits + rest
    && (rest != "" ==> !IsDigit(rest[0]))
    && match e
       case EmptyString => t == ""
       case UnexpectedChar(c) => digits == "" && rest != "" && c == rest[0]
       case MissingUnit => digits != "" && rest == ""
       case InvalidNumber => digits != "" && rest != "" && Decimal(digits) >= 0x1_0000_0000_0000_0000
       case UnknownUnit(c) =>
         digits != "" && rest != "" && Decimal(digits) < 0x1_0000_0000_0000_0000 && c == rest[0] && !IsUnit(c)
       case ZeroDuration =>
         gs != [] && digits == "" && rest == "" && Seconds(gs) % 0x1_0000_0000_0000_0000 == 0
  }

  lemma {:induction false} ScanAfter(total: nat, gs: seq<Group>, rest: string)
    requires AllWellFormed(gs) && total < U64
    ensures Scan("", total, Print(gs) + rest) == Scan("", Wrap(total + Seconds(gs)), rest)
    decreases |gs|
  {
    hide Scan, Wrap, Decimal;
    if gs == [] {
      assert Print(gs) + rest == rest;
      WrapWrap(total, 0, 0);
      WrapSmall(total);
    } else {
      var g := gs[0];
      var sum := total + Amount(Decimal(g.digits), g.unit).value;
      assert Print(gs) + rest == g.digits + [g.unit] + (Print(gs[1..]) + rest);
      ScanGroup(total, g, Print(gs[1..]) + rest);
      WrapWrap(sum, 0, 0);
      ScanAfter(Wrap(sum), gs[1..], rest);
      WrapAdd(sum, Seconds(gs[1..]));
    }
  }

  lemma WrapSmall(a: nat)
    requires a < U64
    ensures Wrap(a) == a
  {
  }

  /** What the scan answers where a text goes wrong. */
  lemma ScanStops(total: nat, digits: string, rest: string)
    requires AllDigits(digits) && (rest != "" ==> !IsDigit(rest[0]))
    requires digits == "" || rest == "" || Decimal(digits) >= U64 || !IsUnit(rest[0])
    ensures Scan("", total, digits + rest)
            == if rest == "" then
                 if digits != "" then Err(MissingUnit) else if total == 0 then Err(ZeroDuration) else Ok(total)
               else if digits == "" then Err(UnexpectedChar(rest[0]))
               else if Decimal(digits) >= U64 then Err(InvalidNumber) else Err(UnknownUnit(rest[0]))
  {
    ScanDigits("", total, digits, rest);
    assert "" + digits == digits;
    hide Decimal;
  }

  /** Every text the parser rejects goes wrong after some groups, which the lemma returns. */
  lemma {:induction false} FailureShape(num: string, total: nat, s: string)
    returns (gs: seq<Group>, digits: string, rest: string)
    requires AllDigits(num) && total < U64 && Scan(num, total, s).Err?
    ensures AllWellFormed(gs) && AllDigits(digits) && num + s == Print(gs) + digits + rest
    ensures rest != "" ==> !IsDigit(rest[0])
    ensures digits == "" || rest == "" || Decimal(digits) >= U64 || !IsUnit(rest[0])
    decreases |s|
  {
    hide Decimal, Wrap;
    if s == "" || (!IsDigit(s[0]) && (num == "" || Decimal(num) >= U64 || !IsUnit(s[0]))) {
      gs, digits, rest := [], num, s;
      assert Print([]) + num + s == num + s;
    } else if IsDigit(s[0]) {
      gs, digits, rest := FailureShape(num + [s[0]], total, s[1..]);
      assert num + [s[0]] + s[1..] == num + s;
    } else {
      WrapWrap(total + Amount(Decimal(num), s[0]).value, 0, 0);
      var more;
      more, digits, rest := FailureShape("", Wrap(total + Amount(Decimal(num), s[0]).value), s[1..]);
      gs := [Group(num, s[0])] + more;
      Rejoin(num, s, more, digits, rest);
    }
  }

  lemma Rejoin(num: string, s: string, more: seq<Group>, digits: string, rest: string)
    requires s != "" && "" + s[1..] == Print(more) + digits + rest
    ensures num + s == Print([Group(num, s[0])] + more) + digits + rest
  {
    hide Print;
    PrintFirst(num, s[0], more);
    Regroup(num, [s[0]], Print(more), digits, rest);
    assert "" + s[1..] == s[1..];
    assert num + [s[0]] + s[1..] == num + s;
  }

  lemma PrintFirst(num: string, c: char, more: seq<Group>)
    ensures Print([Group(num, c)] + more) == num + [c] + Print(more)
  {
    assert ([Group(num, c)] + more)[1..] == more;
  }

  lemma Regroup(a: string, b: string, c: string, d: string, e: string)
    ensures a + b + c + d + e == a + b + (c + d + e)
  {
  }

  /** The parser rejects a text with an error exactly when the trimmed text goes wrong in that way. */
  lemma ErrorIff(s: string, e: DurationError)
    ensures Parse(s) == Err(e) <==>
            exists gs, digits, rest :: FailsAfter(Trim(s), gs, digits, rest, e)
  {
    var t := Trim(s);
    forall gs, digits, rest | FailsAfter(t, gs, digits, rest, e) ensures Parse(s) == Err(e) {
      FailureAnswer(s, gs, digits, rest, e);
    }
    if Parse(s) == Err(e) {
      FailureFound(s, e);
    }
  }

  lemma FailureAnswer(s: string, gs: seq<Group>, digits: string, rest: string, e: DurationError)
    requires FailsAfter(Trim(s), gs, digits, rest, e)
    ensures Parse(s) == Err(e)
  {
    hide Scan, Wrap, Decimal;
    var t := Trim(s);
    if t != "" {
      assert t == Print(gs) + (digits + rest);
      ScanAfter(0, gs, digits + rest);
      ScanStops(Wrap(Seconds(gs)), digits, rest);
      WrapIs(Seconds(gs));
    }
  }

  lemma WrapIs(a: nat)
    ensures Wrap(a) == a % 0x1_0000_0000_0000_0000
  {
  }

  lemma FailureFound(s: string, e: DurationError)
    requires Parse(s) == Err(e)
    ensures exists gs, digits, rest :: FailsAfter(Trim(s), gs, digits, rest, e)
  {
    hide Scan, Wrap, Decimal;
    var t := Trim(s);
    if t == "" {
      assert FailsAfter(t, [], "", "", e);
    } else {
      var gs, digits, rest := FailureShape("", 0, t);
      assert "" + t == t == Print(gs) + (digits + rest);
      ScanAfter(0, gs, digits + rest);
      ScanStops(Wrap(Seconds(gs)), digits, rest);
      WrapIs(Seconds(gs));
      assert FailsAfter(t, gs, digits, rest, e);
    }
  }

  /** The largest number of seconds, followed by one more, is rejected as zero: the total wraps. */
  lemma TotalWrapsToZero()
    ensures Parse(Render(U64 - 1) + "s1s") == Err(ZeroDuration)
  {
    RenderDecimal(U64 - 1);
    hide Render;
    var n := Render(U64 - 1);
    assert "1"[..0] == "" && Decimal("1") == 1;
    WrapsToZero(n);
  }

  lemma WrapsToZero(n: string)
    requires n != "" && AllDigits(n) && Decimal(n) == U64 - 1
    requires Decimal("1") == 1
    ensures Parse(n + "s1s") == Err(ZeroDuration)
  {
    hide Parse, Decimal;
    var most, one := Group(n, 's'), Group("1", 's');
    assert [most, one][1..] == [one] && [one][1..] == [];
    assert Print([one]) == "1s";
    assert n + ['s'] + "1s" == n + "s1s";
    assert Seconds([one]) == 1;
    assert Seconds([most, one]) == U64;
    PrintTrimmed([most, one]);
    SpelledAnswer(n + "s1s", [most, one]);
  }

  // ----- use by the engine -----

  const MAX_MILLIS: int := 0x7FFF_FFFF_FFFF_FFFF

  /** Seconds as a clock span; a span beyond the representable range saturates. */
  function Span(seconds: nat): Time {
    if seconds * 1000 <= MAX_MILLIS then seconds * NANOS_PER_SECOND else MAX_MILLIS * NANOS_PER_MILLI
  }

  /** An accepted duration is a positive span. */
  lemma SpanPositive(s: string)
    requires Parse(s).Ok?
    ensures Span(Parse(s).value) > 0
  {
    var gs := AcceptedSpelling(s);
    SpelledAnswer(s, gs);
  }

  /** A span is its seconds in nanoseconds, up to 2^63 - 1 milliseconds; longer ones are all that long. */
  lemma SpanIs(seconds: nat)
    ensures Span(seconds) == if seconds <= 9_223_372_036_854_775 then seconds * 1_000_000_000
                             else 9_223_372_036_854_775_807 * 1_000_000
  {
  }
}
