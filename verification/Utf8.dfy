/** UTF-8 as section 4 of RFC 3629 has it, and the agent's check of raw
    sequences (guest/minimal-initrd/request.c). */
module Utf8 {
  import opened Bytes

  /** A Unicode scalar value other than NUL: no surrogates. */
  predicate Scalar(cp: nat) {
    0 < cp <= 0x10FFFF && !(0xD800 <= cp <= 0xDFFF)
  }

  function Encode(cp: nat): (s: seq<byte>)
    requires Scalar(cp)
    ensures 1 <= |s| <= 4
  {
    if cp <= 0x7F then [cp]
    else if cp <= 0x7FF then [0xC0 + cp / 64, 0x80 + cp % 64]
    else if cp <= 0xFFFF then [0xE0 + cp / 4096, 0x80 + cp / 64 % 64, 0x80 + cp % 64]
    else [0xF0 + cp / 262144, 0x80 + cp / 4096 % 64, 0x80 + cp / 64 % 64, 0x80 + cp % 64]
  }

  ghost predicate AllScalar(cps: seq<nat>) {
    forall i :: 0 <= i < |cps| ==> Scalar(cps[i])
  }

  /** Well-formed UTF-8 is the encoding of some scalar values. */
  ghost function EncodeAll(cps: seq<nat>): seq<byte>
    requires AllScalar(cps)
  {
    if cps == [] then [] else EncodeAll(cps[..|cps| - 1]) + Encode(cps[|cps| - 1])
  }

  predicate Continues(b: byte) {
    0x80 <= b <= 0xBF
  }

  /** The text ends in its only NUL byte, as a C string does. */
  predicate Terminated(t: seq<byte>) {
    t != [] && t[|t| - 1] == 0 && forall i :: 0 <= i < |t| - 1 ==> t[i] != 0
  }

  /** `raw_utf8_sequence_len` at `p`, with 0 for a sequence it refuses. It reads
      no byte past the terminator. */
  function RawLen(t: seq<byte>, p: nat): (n: nat)
    requires Terminated(t) && p < |t|
    ensures p + n < |t|
  {
    var c := t[p];
    if 0xC2 <= c <= 0xDF then if Continues(t[p + 1]) then 2 else 0
    else if 0xE0 <= c <= 0xEF then
      var c1 := t[p + 1];
      if c1 == 0 || !Continues(t[p + 2]) then 0
      else if c == 0xE0 then if 0xA0 <= c1 <= 0xBF then 3 else 0
      else if c == 0xED then if 0x80 <= c1 <= 0x9F then 3 else 0
      else if Continues(c1) then 3 else 0
    else if 0xF0 <= c <= 0xF4 then
      var c1 := t[p + 1];
      if c1 == 0 || t[p + 2] == 0 || !Continues(t[p + 2]) || !Continues(t[p + 3]) then 0
      else if c == 0xF0 then if 0x90 <= c1 <= 0xBF then 4 else 0
      else if c == 0xF4 then if 0x80 <= c1 <= 0x8F then 4 else 0
      else if Continues(c1) then 4 else 0
    else 0
  }

  function Join2(a: int, b: int): int { a * 64 + b }
  function Join3(a: int, b: int, c: int): int { a * 4096 + b * 64 + c }
  function Join4(a: int, b: int, c: int, d: int): int { a * 262144 + b * 4096 + c * 64 + d }

  /** What a raw sequence stands for. */
  ghost function RawScalar(t: seq<byte>, p: nat): (cp: nat)
    requires Terminated(t) && p < |t| && RawLen(t, p) > 0
    ensures Scalar(cp) && cp > 0x7F
  {
    match RawLen(t, p)
    case 2 => Join2(t[p] - 0xC0, t[p + 1] - 0x80)
    case 3 => Join3(t[p] - 0xE0, t[p + 1] - 0x80, t[p + 2] - 0x80)
    case _ => Join4(t[p] - 0xF0, t[p + 1] - 0x80, t[p + 2] - 0x80, t[p + 3] - 0x80)
  }

  lemma Parts2(a: nat, b: nat)
    requires b < 64
    ensures Join2(a, b) / 64 == a && Join2(a, b) % 64 == b
  {
  }

  lemma Parts3(a: nat, b: nat, c: nat)
    requires b < 64 && c < 64
    ensures var cp := Join3(a, b, c);
            cp / 4096 == a && cp / 64 % 64 == b && cp % 64 == c
  {
    var cp := Join3(a, b, c);
    assert cp == Join2(Join2(a, b), c);
    Parts2(Join2(a, b), c);
    Parts2(a, b);
    assert cp / 4096 == a;
  }

  lemma Parts4(a: nat, b: nat, c: nat, d: nat)
    requires b < 64 && c < 64 && d < 64
    ensures var cp := Join4(a, b, c, d);
            cp / 262144 == a && cp / 4096 % 64 == b && cp / 64 % 64 == c && cp % 64 == d
  {
    var cp := Join4(a, b, c, d);
    assert cp == Join2(Join3(a, b, c), d);
    Parts2(Join3(a, b, c), d);
    Parts3(a, b, c);
    assert cp / 64 == Join3(a, b, c);
    assert cp / 262144 == a;
    assert cp / 4096 == Join2(a, b);
    Parts2(a, b);
  }

  /** A sequence that is let through is the encoding of a scalar value. */
  lemma RawIsEncoded(t: seq<byte>, p: nat)
    requires Terminated(t) && p < |t| && RawLen(t, p) > 0
    ensures t[p..p + RawLen(t, p)] == Encode(RawScalar(t, p))
  {
    hide Join2, Join3, Join4;
    var n := RawLen(t, p);
    var s := t[p..p + n];
    RawScalar2(t, p);
    if n == 2 {
      Parts2(t[p] - 0xC0, t[p + 1] - 0x80);
      assert s == [t[p], t[p + 1]];
    } else if n == 3 {
      Parts3(t[p] - 0xE0, t[p + 1] - 0x80, t[p + 2] - 0x80);
      assert s == [t[p], t[p + 1], t[p + 2]];
    } else {
      Parts4(t[p] - 0xF0, t[p + 1] - 0x80, t[p + 2] - 0x80, t[p + 3] - 0x80);
      assert s == [t[p], t[p + 1], t[p + 2], t[p + 3]];
    }
  }

  /** How long a scalar value's sequence is says how large it is. */
  lemma RawScalar2(t: seq<byte>, p: nat)
    requires Terminated(t) && p < |t| && RawLen(t, p) > 0
    ensures var n, cp := RawLen(t, p), RawScalar(t, p);
            (n == 2 ==> cp <= 0x7FF) && (n == 3 ==> 0x7FF < cp <= 0xFFFF) && (n == 4 ==> cp > 0xFFFF) && 2 <= n <= 4
  {
  }

  /** And the encoding of every scalar value past ASCII is let through, whole. */
  lemma EncodedIsRaw(t: seq<byte>, p: nat, cp: nat)
    requires Terminated(t) && Scalar(cp) && cp > 0x7F && p + |Encode(cp)| < |t| && t[p..p + |Encode(cp)|] == Encode(cp)
    ensures RawLen(t, p) == |Encode(cp)| && RawScalar(t, p) == cp
  {
    var e := Encode(cp);
    var w := t[p..p + |e|];
    assert w[0] == t[p] && w[1] == t[p + 1];
    if |e| == 3 {
      assert w[2] == t[p + 2];
      Raw3(t, p, cp);
    } else if |e| == 4 {
      assert w[2] == t[p + 2] && w[3] == t[p + 3];
      Raw4(t, p, cp);
    }
  }

  lemma Raw3(t: seq<byte>, p: nat, cp: nat)
    requires Terminated(t) && Scalar(cp) && 0x7FF < cp <= 0xFFFF && p + 3 < |t|
    requires t[p] == 0xE0 + cp / 4096 && t[p + 1] == 0x80 + cp / 64 % 64 && t[p + 2] == 0x80 + cp % 64
    ensures RawLen(t, p) == 3 && RawScalar(t, p) == cp
  {
    var a, b, c := cp / 4096, cp / 64 % 64, cp % 64;
    assert cp == Join3(a, b, c);
  }

  lemma Raw4(t: seq<byte>, p: nat, cp: nat)
    requires Terminated(t) && Scalar(cp) && 0xFFFF < cp && p + 4 < |t|
    requires t[p] == 0xF0 + cp / 262144 && t[p + 1] == 0x80 + cp / 4096 % 64 && t[p + 2] == 0x80 + cp / 64 % 64 && t[p + 3] == 0x80 + cp % 64
    ensures RawLen(t, p) == 4 && RawScalar(t, p) == cp
  {
    WholeOf4(cp);
    FromParts4(t, p, cp, cp / 262144, cp / 4096 % 64, cp / 64 % 64, cp % 64);
  }

  lemma WholeOf4(cp: nat)
    ensures cp == Join4(cp / 262144, cp / 4096 % 64, cp / 64 % 64, cp % 64)
  {
    var q := cp / 64;
    var r := q / 64;
    assert r == cp / 4096 && r / 64 == cp / 262144;
  }

  lemma FromParts4(t: seq<byte>, p: nat, cp: nat, a: nat, b: nat, c: nat, d: nat)
    requires Terminated(t) && Scalar(cp) && 0xFFFF < cp && p + 4 < |t| && cp == Join4(a, b, c, d) && b < 64 && c < 64 && d < 64
    requires t[p] == 0xF0 + a && t[p + 1] == 0x80 + b && t[p + 2] == 0x80 + c && t[p + 3] == 0x80 + d
    ensures RawLen(t, p) == 4 && RawScalar(t, p) == cp
  {
  }
}
