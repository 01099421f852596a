/** The string operations of the standard library that the modelled code calls. */
module Text {

  /** Characters with the Unicode White_Space property, which `trim` removes. */
  predicate IsSpace(c: char) {
    || '\U{9}' <= c <= '\U{D}'
    || c == ' '
    || c == '\U{85}'
    || c == '\U{A0}'
    || c == '\U{1680}'
    || '\U{2000}' <= c <= '\U{200A}'
    || c == '\U{2028}' || c == '\U{2029}' || c == '\U{202F}' || c == '\U{205F}' || c == '\U{3000}'
  }

  function TrimStart(s: string): string {
    if s != "" && IsSpace(s[0]) then TrimStart(s[1..]) else s
  }

  function TrimEnd(s: string): string {
    if s != "" && IsSpace(s[|s| - 1]) then TrimEnd(s[..|s| - 1]) else s
  }

  function Trim(s: string): string {
    TrimEnd(TrimStart(s))
  }

  /** A string that `trim` leaves alone. */
  predicate Trimmed(s: string) {
    s == "" || (!IsSpace(s[0]) && !IsSpace(s[|s| - 1]))
  }

  lemma {:induction false} TrimIsTrimmed(s: string)
    ensures Trimmed(Trim(s))
    ensures Trimmed(s) ==> Trim(s) == s
  {
    TrimStartHead(s);
    TrimEndEnds(TrimStart(s));
  }

  lemma {:induction false} TrimStartHead(s: string)
    ensures TrimStart(s) == "" || !IsSpace(TrimStart(s)[0])
    decreases |s|
  {
    if s != "" && IsSpace(s[0]) {
      TrimStartHead(s[1..]);
    }
  }

  lemma {:induction false} TrimEndEnds(s: string)
    ensures TrimEnd(s) <= s
    ensures TrimEnd(s) == "" || !IsSpace(TrimEnd(s)[|TrimEnd(s)| - 1])
    decreases |s|
  {
    if s != "" && IsSpace(s[|s| - 1]) {
      TrimEndEnds(s[..|s| - 1]);
    }
  }

  function Lower(c: char): char {
    if 'A' <= c <= 'Z' then (c as int + 32) as char else c
  }

  /** The characters with a given small letter. */
  lemma LowerIs(c: char, small: char, large: char)
    requires 'a' <= small <= 'z' && large as int == small as int - 32
    ensures Lower(c) == small <==> c in {small, large}
  {
  }

  /** ASCII lower-casing. */
  function AsciiLower(s: string): string {
    seq(|s|, i requires 0 <= i < |s| => Lower(s[i]))
  }

  predicate IsDigit(c: char) {
    '0' <= c <= '9'
  }

  predicate AllDigits(s: string) {
    forall i :: 0 <= i < |s| ==> IsDigit(s[i])
  }

  /** Decimal value of a digit string. */
  function Decimal(s: string): nat
    requires AllDigits(s)
  {
    if s == "" then 0 else Decimal(s[..|s| - 1]) * 10 + (s[|s| - 1] as int - '0' as int)
  }

  /** Decimal rendering, as `format!("{}", n)` prints it. */
  function Render(n: nat): string
    decreases n
  {
    (if n < 10 then "" else Render(n / 10)) + [(n % 10 + '0' as int) as char]
  }

  lemma {:induction false} RenderDecimal(n: nat)
    ensures AllDigits(Render(n)) && Render(n) != "" && Decimal(Render(n)) == n
    decreases n
  {
    var d := (n % 10 + '0' as int) as char;
    if n >= 10 {
      RenderDecimal(n / 10);
      assert Render(n)[..|Render(n)| - 1] == Render(n / 10);
    } else {
      assert Render(n) == [d];
      assert Render(n)[..0] == "";
    }
  }

  /** Different numbers print differently. */
  lemma RenderInjective(m: nat, n: nat)
    requires Render(m) == Render(n)
    ensures m == n
  {
    RenderDecimal(m);
    RenderDecimal(n);
  }
}
