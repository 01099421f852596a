/** Lossy decoding of body chunks, each on its own, and when cutting the bytes makes no difference. */
module Utf8 {
  import opened Sse

  type Byte = b: int | 0 <= b < 256

  /** Bytes of the character a lead byte announces; 0 for a byte that leads none. */
  function Width(lead: Byte): nat {
    if lead < 0x80 then 1
    else if 0xC2 <= lead <= 0xDF then 2
    else if 0xE0 <= lead <= 0xEF then 3
    else if 0xF0 <= lead <= 0xF4 then 4
    else 0
  }

  predicate Continues(b: Byte) {
    0x80 <= b <= 0xBF
  }

  /** The second byte may not make an overlong form, a surrogate, or a value beyond the last plane. */
  predicate SecondFits(lead: Byte, b: Byte) {
    && Continues(b)
    && (lead == 0xE0 ==> b >= 0xA0) && (lead == 0xED ==> b <= 0x9F)
    && (lead == 0xF0 ==> b >= 0x90) && (lead == 0xF4 ==> b <= 0x8F)
  }

  /** `b` may stand at position `k` of a character with this lead. */
  predicate Fits(lead: Byte, k: nat, b: Byte) {
    k < Width(lead) && if k == 1 then SecondFits(lead, b) else Continues(b)
  }

  /** Length of the first unit: a character, or the longest start of one, or a byte that starts none. */
  function Unit(s: seq<Byte>): (k: nat)
    requires s != []
    ensures 1 <= k <= |s| && k <= 4
  {
    if |s| < 2 || !Fits(s[0], 1, s[1]) then 1
    else if |s| < 3 || !Fits(s[0], 2, s[2]) then 2
    else if |s| < 4 || !Fits(s[0], 3, s[3]) then 3
    else 4
  }

  const REPLACEMENT: char := '\U{FFFD}'

  /** The character of the first unit. */
  function First(s: seq<Byte>): char
    requires s != []
  {
    var k := Unit(s);
    if k != Width(s[0]) then REPLACEMENT
    else if k == 1 then s[0] as char
    else if k == 2 then (Lead(s, 0xC0) * 64 + Low(s, 1)) as char
    else if k == 3 then (Lead(s, 0xE0) * 4096 + Low(s, 1) * 64 + Low(s, 2)) as char
    else (Lead(s, 0xF0) * 262144 + Low(s, 1) * 4096 + Low(s, 2) * 64 + Low(s, 3)) as char
  }

  function Lead(s: seq<Byte>, mark: int): int
    requires s != []
  {
    s[0] as int - mark
  }

  /** The six low bits of a continuation byte. */
  function Low(s: seq<Byte>, i: nat): int
    requires i < |s|
  {
    s[i] as int - 0x80
  }

  /** One character for each unit, a replacement character for each that is none. */
  function Decode(s: seq<Byte>): string
    decreases |s|
  {
    if s == [] then "" else [First(s)] + Decode(s[Unit(s)..])
  }

  // ----- encoding -----

  function Cont(n: int): Byte
    requires 0 <= n
  {
    0x80 + n % 64
  }

  function EncodeChar(c: char): seq<Byte> {
    var n := c as int;
    if n < 0x80 then [n]
    else if n < 0x800 then [0xC0 + n / 64, Cont(n)]
    else if n < 0x1_0000 then [0xE0 + n / 4096, Cont(n / 64), Cont(n)]
    else [0xF0 + n / 262144, Cont(n / 4096), Cont(n / 64), Cont(n)]
  }

  function Encode(s: string): seq<Byte> {
    if s == "" then [] else EncodeChar(s[0]) + Encode(s[1..])
  }

  lemma SixBits(n: nat)
    ensures n == n / 64 * 64 + n % 64
    ensures n / 64 == n / 4096 * 64 + n / 64 % 64
    ensures n / 4096 == n / 262144 * 64 + n / 4096 % 64
  {
  }

  lemma TwoBytes(e: seq<Byte>, h: int, l: int, c: char)
    requires 0 <= l < 64 && c as int == h * 64 + l && 0x80 <= c as int < 0x800 && e == [0xC0 + h, 0x80 + l]
    ensures Unit(e) == |e| == Width(e[0]) && First(e) == c
  {
  }

  lemma ThreeBytes(e: seq<Byte>, h: int, m: int, l: int, c: char)
    requires 0 <= m < 64 && 0 <= l < 64 && c as int == h * 4096 + m * 64 + l && 0x800 <= c as int < 0x1_0000
    requires e == [0xE0 + h, 0x80 + m, 0x80 + l]
    ensures Unit(e) == |e| == Width(e[0]) && First(e) == c
  {
  }

  lemma FourBytes(e: seq<Byte>, h: int, k: int, m: int, l: int, c: char)
    requires 0 <= k < 64 && 0 <= m < 64 && 0 <= l < 64
    requires c as int == h * 262144 + k * 4096 + m * 64 + l && 0x1_0000 <= c as int
    requires e == [0xF0 + h, 0x80 + k, 0x80 + m, 0x80 + l]
    ensures Unit(e) == |e| == Width(e[0]) && First(e) == c
  {
  }

  /** The encoding of a character is one unit, and that character. */
  lemma CharDecodes(c: char)
    ensures var e := EncodeChar(c);
            e != [] && Unit(e) == |e| == Width(e[0]) && First(e) == c
  {
    var n := c as int;
    var e := EncodeChar(c);
    SixBits(n);
    if n < 0x80 {
      assert e == [n];
    } else if n < 0x800 {
      hide Unit, First, Width;
      TwoBytes(e, n / 64, n % 64, c);
    } else if n < 0x1_0000 {
      hide Unit, First, Width;
      ThreeBytes(e, n / 4096, n / 64 % 64, n % 64, c);
    } else {
      hide Unit, First, Width;
      FourBytes(e, n / 262144, n / 4096 % 64, n / 64 % 64, n % 64, c);
    }
  }

  /** Decoding inverts encoding. */
  lemma {:induction false} DecodeEncode(s: string)
    ensures Decode(Encode(s)) == s
    decreases |s|
  {
    hide EncodeChar, First, Unit, Decode, Width, Fits;
    NothingDecoded();
    if s != "" {
      var e, rest := EncodeChar(s[0]), Encode(s[1..]);
      CharDecodes(s[0]);
      WidthBounds(e);
      UnitStays(e, rest);
      DecodeStep(e + rest);
      assert (e + rest)[|e|..] == rest;
      DecodeEncode(s[1..]);
      assert s == [s[0]] + s[1..];
    }
  }

  /** Nothing goes on with a complete character. */
  lemma WidthBounds(e: seq<Byte>)
    requires e != [] && |e| == Width(e[0])
    ensures forall b :: !Fits(e[0], |e|, b)
  {
  }

  // ----- what a unit is -----

  /** These bytes begin the encoding of some character. */
  ghost predicate Begins(b: seq<Byte>) {
    exists c :: b <= EncodeChar(c)
  }

  lemma PairBack(s: seq<Byte>, h: int, l: int)
    requires |s| >= 2 && h == s[0] as int - 0xC0 && l == s[1] as int - 0x80 && 2 <= h < 0x20 && 0 <= l < 64
    ensures 0 <= h * 64 + l < 0xD800 && EncodeChar((h * 64 + l) as char) == s[..2]
  {
    var n := h * 64 + l;
    assert n / 64 == h && n % 64 == l;
  }

  lemma TripleBack(s: seq<Byte>, h: int, m: int, l: int)
    requires |s| >= 3 && h == s[0] as int - 0xE0 && m == s[1] as int - 0x80 && l == s[2] as int - 0x80
    requires 0 <= h < 0x10 && 0 <= m < 64 && 0 <= l < 64
    requires (h == 0 ==> m >= 0x20) && (h == 0xD ==> m < 0x20)
    ensures var n := h * 4096 + m * 64 + l;
            (0x800 <= n < 0xD800 || 0xE000 <= n < 0x1_0000) && EncodeChar(n as char) == s[..3]
  {
    var n := h * 4096 + m * 64 + l;
    assert n / 4096 == h && n / 64 == h * 64 + m && n % 64 == l && n / 64 % 64 == m;
  }

  lemma QuadBack(s: seq<Byte>, h: int, k: int, m: int, l: int)
    requires |s| >= 4 && h == s[0] as int - 0xF0 && k == s[1] as int - 0x80 && m == s[2] as int - 0x80
    requires l == s[3] as int - 0x80 && 0 <= h < 5 && 0 <= k < 64 && 0 <= m < 64 && 0 <= l < 64
    requires (h == 0 ==> k >= 0x10) && (h == 4 ==> k < 0x10)
    ensures var n := h * 262144 + k * 4096 + m * 64 + l;
            0x1_0000 <= n < 0x11_0000 && EncodeChar(n as char) == s[..4]
  {
    var n := h * 262144 + k * 4096 + m * 64 + l;
    assert n / 262144 == h && n / 4096 == h * 64 + k && n / 64 == h * 4096 + k * 64 + m;
    assert n % 64 == l && n / 64 % 64 == m && n / 4096 % 64 == k;
  }

  /** A complete unit is the encoding of its character. */
  lemma UnitEncodes(s: seq<Byte>)
    requires s != [] && Unit(s) == Width(s[0])
    ensures EncodeChar(First(s)) == s[..Unit(s)]
  {
    var k := Unit(s);
    if k == 2 {
      PairBack(s, Lead(s, 0xC0), Low(s, 1));
    } else if k == 3 {
      TripleBack(s, Lead(s, 0xE0), Low(s, 1), Low(s, 2));
    } else if k == 4 {
      QuadBack(s, Lead(s, 0xF0), Low(s, 1), Low(s, 2), Low(s, 3));
    }
  }

  /** The least byte that fits at position `k`. */
  function Filler(lead: Byte, k: nat): Byte {
    if k == 1 && lead == 0xE0 then 0xA0 else if k == 1 && lead == 0xF0 then 0x90 else 0x80
  }

  lemma UnitIs(s: seq<Byte>)
    requires s != []
    ensures var k := Unit(s);
            && (forall i :: 1 <= i < k ==> Fits(s[0], i, s[i])) && (k < |s| ==> !Fits(s[0], k, s[k]))
            && (Width(s[0]) > 0 ==> k <= Width(s[0]))
  {
  }

  lemma UnitAtLeast(s: seq<Byte>, j: nat)
    requires 1 <= j <= |s| && forall i :: 1 <= i < j ==> Fits(s[0], i, s[i])
    ensures Unit(s) >= j
  {
    UnitIs(s);
    WidthMost(s[0]);
    hide Unit, Fits;
  }

  lemma WidthMost(lead: Byte)
    ensures Width(lead) <= 4
  {
  }

  /** Bytes that fit can be completed to an encoding. */
  lemma Completed(t: seq<Byte>)
    requires t != [] && |t| <= Width(t[0]) && forall i :: 1 <= i < |t| ==> Fits(t[0], i, t[i])
    ensures Begins(t)
    decreases Width(t[0]) - |t|
  {
    hide Width, Fits, Unit, EncodeChar, First;
    if |t| == Width(t[0]) {
      UnitAtLeast(t, |t|);
      UnitEncodes(t);
      assert t[..|t|] == t;
    } else {
      FillerFits(t[0], |t|);
      var more := t + [Filler(t[0], |t|)];
      Completed(more);
      var c :| more <= EncodeChar(c);
      assert t <= EncodeChar(c);
    }
  }

  lemma FillerFits(lead: Byte, k: nat)
    requires 1 <= k < Width(lead)
    ensures Fits(lead, k, Filler(lead, k))
  {
  }

  /** The bytes of an encoding fit, all of them and no more. */
  lemma EncodingFits(s: seq<Byte>, j: nat, c: char)
    requires 1 <= j <= |s| && s[..j] <= EncodeChar(c)
    ensures Width(s[0]) == |EncodeChar(c)| && forall i :: 1 <= i < j ==> Fits(s[0], i, s[i])
  {
    hide Width, Fits, Unit, EncodeChar, First;
    var e := EncodeChar(c);
    CharDecodes(c);
    UnitIs(e);
    forall i | 0 <= i < j ensures s[i] == e[i] {
      assert s[i] == s[..j][i];
    }
  }

  /** The first `j` bytes begin an encoding exactly when they lie in a first unit that starts like one. */
  lemma BeginsIff(s: seq<Byte>, j: nat)
    requires 1 <= j <= |s|
    ensures Begins(s[..j]) <==> Width(s[0]) > 0 && j <= Unit(s)
  {
    hide Width, Fits, Unit, EncodeChar, First;
    if Begins(s[..j]) {
      var c :| s[..j] <= EncodeChar(c);
      EncodingFits(s, j, c);
      UnitAtLeast(s, j);
    }
    if Width(s[0]) > 0 && j <= Unit(s) {
      UnitIs(s);
      Completed(s[..j]);
    }
  }

  /**
   * The first unit is the encoding of a character, if the bytes start with one; else it is the longest
   * part that begins one, or a single byte that begins none, and stands for a replacement character.
   */
  ghost predicate FirstUnit(s: seq<Byte>, k: nat, c: char) {
    && 1 <= k <= |s|
    && if exists d :: EncodeChar(d) <= s then EncodeChar(c) == s[..k]
       else
         && c == '\U{FFFD}'
         && if Begins(s[..1]) then Begins(s[..k]) && (k < |s| ==> !Begins(s[..k + 1])) else k == 1
  }

  lemma UnitIsFirst(s: seq<Byte>)
    requires s != []
    ensures FirstUnit(s, Unit(s), First(s))
  {
    hide Width, Fits, Unit, EncodeChar, Begins;
    var k := Unit(s);
    if d :| EncodeChar(d) <= s {
      var e := EncodeChar(d);
      CharDecodes(d);
      assert s[..|e|] == e;
      EncodingFits(s, |e|, d);
      UnitAtLeast(s, |e|);
      UnitIs(s);
      UnitEncodes(s);
    } else {
      if k == Width(s[0]) {
        UnitEncodes(s);
      }
      BeginsIff(s, 1);
      BeginsIff(s, k);
      if k < |s| {
        BeginsIff(s, k + 1);
      }
      if Width(s[0]) == 0 {
        UnitAlone(s);
      }
    }
  }

  lemma UnitAlone(s: seq<Byte>)
    requires s != [] && Width(s[0]) == 0
    ensures Unit(s) == 1
  {
  }

  /** Decoding takes the first unit off and goes on; nothing decodes to nothing. */
  lemma DecodeUnits(s: seq<Byte>)
    ensures s == [] ==> Decode(s) == ""
    ensures s != [] ==> exists k: nat, c :: FirstUnit(s, k, c) && Decode(s) == [c] + Decode(s[k..])
  {
    hide Unit, First, FirstUnit;
    if s != [] {
      UnitIsFirst(s);
    }
  }

  // ----- one cut -----

  /** The bytes of the last unit. */
  function Tail(s: seq<Byte>): seq<Byte>
    decreases |s|
  {
    if s == [] || Unit(s) == |s| then s else Tail(s[Unit(s)..])
  }

  /** `b` goes on with the character whose start `a` ends with. */
  predicate Cuts(a: seq<Byte>, b: seq<Byte>) {
    var t := Tail(a);
    t != [] && b != [] && Fits(t[0], |t|, b[0])
  }

  lemma UnitStays(a: seq<Byte>, b: seq<Byte>)
    requires a != [] && (Unit(a) < |a| || b == [] || !Fits(a[0], |a|, b[0]))
    ensures Unit(a + b) == Unit(a) && First(a + b) == First(a)
  {
    if b == [] {
      assert a + b == a;
    } else {
      assert forall i :: 0 <= i < |a| ==> (a + b)[i] == a[i];
      assert (a + b)[|a|] == b[0];
    }
  }

  lemma UnitGrows(t: seq<Byte>, b: seq<Byte>)
    requires t != [] && Unit(t) == |t| && b != [] && Fits(t[0], |t|, b[0])
    ensures Unit(t + b) > |t|
    ensures forall i :: 0 <= i < Unit(t + b) - |t| ==> Continues(b[i])
    ensures Unit(t) != Width(t[0])
  {
    assert forall i :: 0 <= i < |t| ==> (t + b)[i] == t[i];
    assert forall i :: |t| <= i < |t + b| ==> (t + b)[i] == b[i - |t|];
  }

  /** Bytes that continue nothing are one unit each. */
  lemma {:induction false} Strays(b: seq<Byte>, j: nat)
    requires j <= |b| && forall i :: 0 <= i < j ==> Continues(b[i])
    ensures |Decode(b)| == j + |Decode(b[j..])|
    decreases j
  {
    if j > 0 {
      assert Width(b[0]) == 0 && Unit(b) == 1;
      Strays(b[1..], j - 1);
      assert b[1..][j - 1..] == b[j..];
    }
  }

  /** A cut inside a character lengthens the text; any other leaves it as it is. */
  lemma {:induction false} CutDecode(a: seq<Byte>, b: seq<Byte>)
    ensures !Cuts(a, b) ==> Decode(a + b) == Decode(a) + Decode(b)
    ensures Cuts(a, b) ==> |Decode(a + b)| < |Decode(a)| + |Decode(b)|
    decreases |a|
  {
    hide First, Fits, Unit, Decode;
    NothingDecoded();
    if a == [] {
      assert a + b == b;
    } else if Unit(a) < |a| {
      UnitStays(a, b);
      assert (a + b)[Unit(a)..] == a[Unit(a)..] + b;
      DecodeStep(a);
      DecodeStep(a + b);
      CutDecode(a[Unit(a)..], b);
      Assoc([First(a)], Decode(a[Unit(a)..]), Decode(b));
    } else {
      LastUnit(a, b);
    }
  }

  lemma DecodeStep(s: seq<Byte>)
    requires s != []
    ensures Decode(s) == [First(s)] + Decode(s[Unit(s)..])
  {
  }

  /** The case of a single unit before the cut. */
  lemma LastUnit(a: seq<Byte>, b: seq<Byte>)
    requires a != [] && Unit(a) == |a|
    ensures !Cuts(a, b) ==> Decode(a + b) == Decode(a) + Decode(b)
    ensures Cuts(a, b) ==> |Decode(a + b)| < |Decode(a)| + |Decode(b)|
  {
    hide First, Fits, Unit, Decode;
    NothingDecoded();
    DecodeStep(a);
    DecodeStep(a + b);
    assert a[|a|..] == [];
    if Cuts(a, b) {
      var k := Unit(a + b);
      UnitGrows(a, b);
      assert (a + b)[k..] == b[k - |a|..];
      Strays(b, k - |a|);
    } else {
      UnitStays(a, b);
      assert (a + b)[|a|..] == b;
    }
  }

  // ----- many chunks -----

  function Bytes(chunks: seq<seq<Byte>>): seq<Byte> {
    if chunks == [] then [] else chunks[0] + Bytes(chunks[1..])
  }

  /** Each chunk decoded on its own, as it arrives. */
  function Decoded(chunks: seq<seq<Byte>>): seq<string> {
    seq(|chunks|, i requires 0 <= i < |chunks| => Decode(chunks[i]))
  }

  /** No chunk ends inside a character that the bytes after it go on with. */
  predicate NoneCut(chunks: seq<seq<Byte>>)
    decreases |chunks|
  {
    chunks == [] || (!Cuts(chunks[0], Bytes(chunks[1..])) && NoneCut(chunks[1..]))
  }

  lemma {:induction false} DecodedLength(chunks: seq<seq<Byte>>)
    ensures NoneCut(chunks) ==> Concat(Decoded(chunks)) == Decode(Bytes(chunks))
    ensures !NoneCut(chunks) ==> |Concat(Decoded(chunks))| > |Decode(Bytes(chunks))|
    decreases |chunks|
  {
    hide Decode, Cuts;
    if chunks == [] {
      assert Decode([]) == "" by { NothingDecoded(); }
    } else {
      assert Decoded(chunks)[1..] == Decoded(chunks[1..]);
      DecodedLength(chunks[1..]);
      CutDecode(chunks[0], Bytes(chunks[1..]));
    }
  }

  lemma NothingDecoded()
    ensures Decode([]) == ""
  {
  }

  /** Decoding chunk by chunk gives the text of the whole body if and only if no chunk ends inside a character. */
  lemma DecodedIff(chunks: seq<seq<Byte>>)
    ensures Concat(Decoded(chunks)) == Decode(Bytes(chunks)) <==> NoneCut(chunks)
  {
    hide Decode, NoneCut;
    DecodedLength(chunks);
  }

  /** Then the events and the leftover state depend only on the bytes received, not on how they were cut. */
  lemma ByteIndependence(chunks: seq<seq<Byte>>)
    requires NoneCut(chunks)
    ensures FeedAll(FRESH, Decoded(chunks)) == Feed(FRESH, Decode(Bytes(chunks)))
  {
    hide Decode, NoneCut, Feed, FeedAll, Newline;
    DecodedIff(chunks);
    assert Newline(FRESH.buffer) == |FRESH.buffer|;
    ChunkIndependence(FRESH, Decoded(chunks));
  }

  /** The two bytes of one character in different chunks: two replacement characters arrive instead. */
  lemma CutCharacter()
    ensures Decode([0xC3, 0xA9]) == "\U{E9}"
    ensures Concat(Decoded([[0xC3], [0xA9]])) == "\U{FFFD}\U{FFFD}"
  {
    var e, a, b: seq<Byte> := [0xC3, 0xA9], [0xC3], [0xA9];
    assert e[2..] == [] && a[1..] == [] && b[1..] == [];
    assert Decode(e) == [First(e)] + Decode([]);
    assert Decode(a) == [REPLACEMENT] + Decode([]) && Decode(b) == [REPLACEMENT] + Decode([]);
    var texts := Decoded([a, b]);
    assert texts[0] == [REPLACEMENT] && texts[1..] == [[REPLACEMENT]];
    assert [[REPLACEMENT]][1..] == [];
  }
}
