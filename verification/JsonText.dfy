/** JSON texts and what the agent reads where they stand: each form of number and
    string is given by its characters (guest/minimal-initrd/request.c). */
module JsonText {
  import opened Bytes
  import opened Utf8
  import opened Json

  /** The bytes stand at `p`, with more after them. */
  predicate Stands(t: seq<byte>, p: nat, b: seq<byte>) {
    p + |b| < |t| && t[p..p + |b|] == b
  }

  lemma StandsIn(t: seq<byte>, p: nat, a: seq<byte>, b: seq<byte>)
    requires Stands(t, p, a + b)
    ensures Stands(t, p, a) && Stands(t, p + |a|, b)
  {
    assert t[p..p + |a|] == t[p..p + |a + b|][..|a|] && t[p + |a|..p + |a| + |b|] == t[p..p + |a + b|][|a|..];
  }

  lemma StandsApart(t: seq<byte>, p: nat, a: seq<byte>, c: byte, b: seq<byte>)
    requires Stands(t, p, a + [c] + b)
    ensures Stands(t, p, a) && t[p + |a|] == c && Stands(t, p + |a| + 1, b)
  {
    StandsIn(t, p, a + [c], b);
    StandsIn(t, p, a, [c]);
    assert t[p + |a|] == t[p + |a|..p + |a| + 1][0];
  }

  lemma StandsFirst(t: seq<byte>, p: nat, b: seq<byte>)
    requires Stands(t, p, b) && b != []
    ensures t[p] == b[0]
  {
    assert t[p..p + |b|][0] == t[p];
  }

  /** The white space of section 2 of RFC 8259. */
  predicate AllWs(w: seq<byte>) {
    forall i :: 0 <= i < |w| ==> w[i] in {0x20, 0x09, 0x0A, 0x0D}
  }

  lemma {:induction false} SkipsOver(t: seq<byte>, p: nat, w: seq<byte>)
    requires Terminated(t) && Stands(t, p, w) && AllWs(w) && t[p + |w|] !in {0x20, 0x09, 0x0A, 0x0D}
    ensures SkipWs(t, p) == p + |w|
    decreases |w|
  {
    if w != [] {
      assert t[p] == w[0];
      StandsIn(t, p, [w[0]], w[1..]);
      assert [w[0]] + w[1..] == w;
      SkipsOver(t, p + 1, w[1..]);
    }
  }

  /** Just the white space is skipped. */
  lemma {:induction false} SkippedIsWs(t: seq<byte>, p: nat)
    requires Terminated(t) && p < |t|
    ensures AllWs(t[p..SkipWs(t, p)]) && t[SkipWs(t, p)] !in {0x20, 0x09, 0x0A, 0x0D}
    decreases |t| - p
  {
    if IsWs(t[p]) {
      SkippedIsWs(t, p + 1);
      var q := SkipWs(t, p + 1);
      assert t[p..q] == [t[p]] + t[p + 1..q];
    } else {
      assert t[p..p] == [];
    }
  }

  lemma NoWs(t: seq<byte>, p: nat)
    requires Terminated(t) && p < |t| && t[p] !in {0x20, 0x09, 0x0A, 0x0D}
    ensures SkipWs(t, p) == p
  {
  }

  lemma StandsInside(t: seq<byte>, p: nat, b: seq<byte>)
    requires Stands(t, p, b)
    ensures p < |t|
  {
  }

  /** What may follow a word or a number. */
  predicate Ends(t: seq<byte>, p: nat) {
    p < |t| && t[p] in {0, 0x2C, 0x7D, 0x5D, 0x20, 0x09, 0x0A, 0x0D}
  }

  lemma WordIs(t: seq<byte>, p: nat, w: seq<byte>)
    ensures Word(t, p, w) <==> Stands(t, p, w) && Ends(t, p + |w|)
  {
  }

  // ---- Numbers ----

  /** A number in decimal digits, without leading zeros. */
  function NumberText(n: nat): (s: seq<byte>)
    ensures s != [] && forall i :: 0 <= i < |s| ==> 0x30 <= s[i] <= 0x39
    ensures s[0] == 0x30 ==> |s| == 1
    ensures n > 0 ==> s[0] != 0x30
  {
    if n < 10 then [0x30 + n] else NumberText(n / 10) + [0x30 + n % 10]
  }

  lemma {:induction false} DigitsStand(t: seq<byte>, p: nat, e: nat)
    requires Terminated(t) && p <= e < |t| && (forall i :: p <= i < e ==> 0x30 <= t[i] <= 0x39) && !(0x30 <= t[e] <= 0x39)
    ensures DigitsEnd(t, p) == e
    decreases e - p
  {
    if p < e {
      DigitsStand(t, p + 1, e);
    }
  }

  lemma {:induction false} DecimalStands(t: seq<byte>, p: nat, n: nat)
    requires Stands(t, p, NumberText(n))
    ensures forall i :: p <= i < p + |NumberText(n)| ==> IsDigit(t[i])
    ensures Decimal(t, p, p + |NumberText(n)|) == n
    decreases n
  {
    var s := NumberText(n);
    var e := p + |s|;
    forall i | p <= i < e ensures t[i] == s[i - p] {
      assert t[p..e][i - p] == t[i];
    }
    if n < 10 {
      assert Decimal(t, p, p) == 0;
    } else {
      StandsIn(t, p, NumberText(n / 10), [0x30 + n % 10]);
      DecimalStands(t, p, n / 10);
      assert s[|s| - 1] == 0x30 + n % 10;
    }
  }

  /** Digits that no digit follows are read as the number they write, if 64 bits hold it. */
  lemma NumberReads(t: seq<byte>, p: nat, n: nat)
    requires Terminated(t) && Stands(t, p, NumberText(n)) && !(0x30 <= t[p + |NumberText(n)|] <= 0x39)
    ensures U64At(t, p) == if n <= 0xFFFF_FFFF_FFFF_FFFF then Got(n, p + |NumberText(n)|) else No
  {
    hide NumberText, Decimal, DigitsEnd;
    DecimalStands(t, p, n);
    DigitsStand(t, p, p + |NumberText(n)|);
    StandsFirst(t, p, NumberText(n));
  }

  lemma {:induction false} DecimalText(t: seq<byte>, p: nat, e: nat)
    requires p < e <= |t| && (forall i :: p <= i < e ==> IsDigit(t[i])) && (t[p] != 0x30 || e == p + 1)
    ensures NumberText(Decimal(t, p, e)) == t[p..e] && (t[p] != 0x30 ==> Decimal(t, p, e) > 0)
    decreases e
  {
    if e == p + 1 {
      assert Decimal(t, p, p) == 0 && t[p..e] == [t[p]];
    } else {
      DecimalText(t, p, e - 1);
      assert t[p..e] == t[p..e - 1] + [t[e - 1]];
      var high := Decimal(t, p, e - 1);
      assert Decimal(t, p, e) == high * 10 + (t[e - 1] - 0x30);
    }
  }

  /** And nothing else is read as a number. */
  lemma ReadIsNumber(t: seq<byte>, p: nat)
    requires Terminated(t) && p < |t| && U64At(t, p).Got?
    ensures var r := U64At(t, p);
            Stands(t, p, NumberText(r.value)) && p + |NumberText(r.value)| == r.end && !(0x30 <= t[r.end] <= 0x39)
  {
    hide NumberText, Decimal;
    DigitsAre(t, p);
    DecimalText(t, p, DigitsEnd(t, p));
  }

  // ---- Strings ----

  /** What each escape of one character stands for; the others are refused. */
  lemma EscapesRead(t: seq<byte>, p: nat)
    requires Terminated(t) && p + 1 < |t| && t[p] == 0x5C
    ensures t[p + 1] == 0x22 ==> CharAt(t, p) == Got(0x22, p + 2)
    ensures t[p + 1] == 0x5C ==> CharAt(t, p) == Got(0x5C, p + 2)
    ensures t[p + 1] == 0x2F ==> CharAt(t, p) == Got(0x2F, p + 2)
    ensures t[p + 1] == 0x62 ==> CharAt(t, p) == Got(8, p + 2)
    ensures t[p + 1] == 0x66 ==> CharAt(t, p) == Got(12, p + 2)
    ensures t[p + 1] == 0x6E ==> CharAt(t, p) == Got(10, p + 2)
    ensures t[p + 1] == 0x72 ==> CharAt(t, p) == Got(13, p + 2)
    ensures t[p + 1] == 0x74 ==> CharAt(t, p) == Got(9, p + 2)
    ensures t[p + 1] !in {0x22, 0x5C, 0x2F, 0x62, 0x66, 0x6E, 0x72, 0x74, 0x75} ==> CharAt(t, p).No?
  {
    hide UnicodeEscape;
  }

  /** A hexadecimal digit and its value. */
  predicate HexIs(c: byte, d: nat) {
    (d < 10 && c == 0x30 + d) || (10 <= d < 16 && (c == 0x41 + d - 10 || c == 0x61 + d - 10))
  }

  /** Four hexadecimal digits and their value. */
  predicate QuadIs(s: seq<byte>, v: nat) {
    |s| == 4 && HexIs(s[0], v / 4096) && HexIs(s[1], v / 256 % 16) && HexIs(s[2], v / 16 % 16) && HexIs(s[3], v % 16)
  }

  lemma HexReads(c: byte, d: nat)
    ensures HexIs(c, d) <==> HexDigit(c) == d
  {
  }

  lemma Halves(a: nat, b: nat, v: nat)
    requires b < 16 && v == 16 * a + b
    ensures v / 16 == a && v % 16 == b
  {
  }

  lemma FourDigits(v: nat, a: nat, b: nat, c: nat, d: nat)
    requires a < 16 && b < 16 && c < 16 && d < 16
    ensures v == a * 4096 + b * 256 + c * 16 + d <==> v / 4096 == a && v / 256 % 16 == b && v / 16 % 16 == c && v % 16 == d
  {
    var high := v / 16;
    var top := high / 16;
    assert top == v / 256 && top / 16 == v / 4096;
    assert v == 16 * high + v % 16 && high == 16 * top + high % 16 && top == 16 * (top / 16) + top % 16;
    if v == a * 4096 + b * 256 + c * 16 + d {
      Halves(16 * (16 * a + b) + c, d, v);
      Halves(16 * a + b, c, high);
      Halves(a, b, top);
    }
  }

  /** Four digits are read as their value, and nothing else is read there. */
  lemma QuadReads(t: seq<byte>, p: nat, v: nat)
    requires Terminated(t) && p + 4 < |t|
    ensures HexQuad(t, p) == Got(v, p + 4) <==> QuadIs(t[p..p + 4], v)
  {
    hide HexDigit, HexIs;
    assert t[p..p + 4] == [t[p], t[p + 1], t[p + 2], t[p + 3]];
    HexReads(t[p], v / 4096);
    HexReads(t[p + 1], v / 256 % 16);
    HexReads(t[p + 2], v / 16 % 16);
    HexReads(t[p + 3], v % 16);
    var a, b, c, d := HexDigit(t[p]), HexDigit(t[p + 1]), HexDigit(t[p + 2]), HexDigit(t[p + 3]);
    if a >= 0 && b >= 0 && c >= 0 && d >= 0 {
      FourDigits(v, a, b, c, d);
    }
  }

  /** A \u escape is the code point its digits write, unless that is NUL or a surrogate. */
  lemma UnicodeReads(t: seq<byte>, p: nat, s: seq<byte>, cp: nat)
    requires Terminated(t) && QuadIs(s, cp) && Stands(t, p, [0x5C, 0x75] + s) && !(0xD800 <= cp <= 0xDBFF)
    ensures CharAt(t, p) == if cp == 0 || 0xDC00 <= cp <= 0xDFFF then No else Got(cp, p + 6)
  {
    hide HexQuad, HexIs, Escaped;
    StandsIn(t, p, [0x5C, 0x75], s);
    WordStands(t, p, 0x5C, 0x75);
    QuadReads(t, p + 2, cp);
  }

  lemma WordStands(t: seq<byte>, p: nat, a: byte, b: byte)
    requires Stands(t, p, [a, b])
    ensures t[p] == a && t[p + 1] == b && p + 2 < |t|
  {
    assert t[p..p + 2][0] == a && t[p..p + 2][1] == b;
  }

  /** Two \u escapes that are the surrogates of a code point past the basic plane are that code point. */
  lemma PairReads(t: seq<byte>, p: nat, s: seq<byte>, s': seq<byte>, cp: nat)
    requires Terminated(t) && 0x10000 <= cp <= 0x10FFFF
    requires QuadIs(s, 0xD800 + (cp - 0x10000) / 1024) && QuadIs(s', 0xDC00 + (cp - 0x10000) % 1024)
    requires Stands(t, p, [0x5C, 0x75] + s + ([0x5C, 0x75] + s'))
    ensures CharAt(t, p) == Got(cp, p + 12)
  {
    hide HexQuad, HexIs, Escaped;
    StandsIn(t, p, [0x5C, 0x75] + s, [0x5C, 0x75] + s');
    StandsIn(t, p, [0x5C, 0x75], s);
    StandsIn(t, p + 6, [0x5C, 0x75], s');
    WordStands(t, p, 0x5C, 0x75);
    WordStands(t, p + 6, 0x5C, 0x75);
    QuadReads(t, p + 2, 0xD800 + (cp - 0x10000) / 1024);
    QuadReads(t, p + 8, 0xDC00 + (cp - 0x10000) % 1024);
  }

  /** A character as it is written inside quotes: as itself, or escaped where it must be. */
  ghost function CharText(cp: nat): seq<byte>
    requires Scalar(cp)
  {
    if Plain(cp) then Encode(cp) else [0x5C, 0x75, 0x30, 0x30, 0x30 + cp / 16, if cp % 16 < 10 then 0x30 + cp % 16 else 0x61 + cp % 16 - 10]
  }

  lemma CharReads(t: seq<byte>, p: nat, cp: nat)
    requires Terminated(t) && Scalar(cp) && Stands(t, p, CharText(cp))
    ensures t[p] != 0 && t[p] != Ch('"') && CharAt(t, p) == Got(cp, p + |CharText(cp)|)
  {
    hide CharAt, Encode;
    if Plain(cp) {
      PlainCharReads(t, p, cp);
    } else {
      var s := CharText(cp)[2..];
      assert CharText(cp) == [0x5C, 0x75] + s && QuadIs(s, cp);
      UnicodeReads(t, p, s, cp);
      StandsFirst(t, p, CharText(cp));
    }
  }

  ghost function CharsText(cps: seq<nat>): seq<byte>
    requires AllScalar(cps)
  {
    if cps == [] then [] else CharText(cps[0]) + CharsText(cps[1..])
  }

  /** A string as it is written. */
  ghost function StringText(cps: seq<nat>): (s: seq<byte>)
    requires AllScalar(cps)
    ensures |s| >= 2 && s[0] == 0x22
  {
    [0x22] + CharsText(cps) + [0x22]
  }

  lemma {:induction false} CharsRead(t: seq<byte>, p: nat, cps: seq<nat>)
    requires Terminated(t) && AllScalar(cps) && Stands(t, p, CharsText(cps) + [0x22])
    ensures CharsAt(t, p) == Got(cps, p + |CharsText(cps)| + 1)
    decreases |cps|
  {
    hide CharAt, CharText, Scalar, Stands;
    if cps == [] {
      StandsIn(t, p, CharsText(cps), [0x22]);
      StandsFirst(t, p, [0x22]);
    } else {
      var rest := CharsText(cps[1..]) + [0x22];
      assert CharsText(cps) + [0x22] == CharText(cps[0]) + rest;
      StandsIn(t, p, CharText(cps[0]), rest);
      CharReads(t, p, cps[0]);
      CharsRead(t, p + |CharText(cps[0])|, cps[1..]);
      assert cps == [cps[0]] + cps[1..];
    }
  }

  /** A string is read as its characters, wherever it stands. */
  lemma StringReads(t: seq<byte>, p: nat, cps: seq<nat>)
    requires Terminated(t) && AllScalar(cps) && Stands(t, p, StringText(cps))
    ensures StringAt(t, p) == Got(cps, p + |StringText(cps)|)
  {
    hide CharsAt, CharsText, Scalar, Stands;
    assert StringText(cps) == [0x22] + (CharsText(cps) + [0x22]);
    StandsIn(t, p, [0x22], CharsText(cps) + [0x22]);
    StandsFirst(t, p, [0x22]);
    CharsRead(t, p + 1, cps);
  }

  /** A text without a NUL. */
  predicate Clean(b: seq<byte>) {
    forall i :: 0 <= i < |b| ==> b[i] != 0
  }

  lemma {:induction false} CharsAreClean(cps: seq<nat>)
    requires AllScalar(cps)
    ensures Clean(CharsText(cps))
    decreases |cps|
  {
    if cps != [] {
      CharsAreClean(cps[1..]);
    }
  }
}
