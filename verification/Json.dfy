/** The agent's JSON reader (guest/minimal-initrd/request.c). Texts are C
    strings: bytes that end in their only NUL, with every read inside them. */
module Json {
  import opened Bytes
  import opened Utf8

  /** What stands at a position: a value and where it ends, or nothing readable. */
  datatype At<T> = Got(value: T, end: nat) | No

  function Ch(c: char): byte
    requires c as int < 256
  {
    c as int
  }

  // ---- Strings (section 7 of RFC 8259) ----

  function HexDigit(c: byte): (d: int)
    ensures -1 <= d < 16
  {
    if Ch('0') <= c <= Ch('9') then c - Ch('0')
    else if Ch('a') <= c <= Ch('f') then c - Ch('a') + 10
    else if Ch('A') <= c <= Ch('F') then c - Ch('A') + 10
    else -1
  }

  /** Four hexadecimal digits. */
  ghost function HexQuad(t: seq<byte>, p: nat): (r: At<nat>)
    requires Terminated(t) && p < |t|
    ensures r.Got? ==> r.end == p + 4 < |t| && r.value < 0x10000
  {
    if HexDigit(t[p]) < 0 then No
    else if HexDigit(t[p + 1]) < 0 then No
    else if HexDigit(t[p + 2]) < 0 then No
    else if HexDigit(t[p + 3]) < 0 then No
    else Got(HexDigit(t[p]) * 4096 + HexDigit(t[p + 1]) * 256 + HexDigit(t[p + 2]) * 16 + HexDigit(t[p + 3]), p + 4)
  }

  /** A surrogate pair stands for one code point past the basic plane. */
  ghost function Pair(high: nat, low: nat): nat
    requires 0xD800 <= high <= 0xDBFF && 0xDC00 <= low <= 0xDFFF
  {
    0x10000 + (high - 0xD800) * 0x400 + (low - 0xDC00)
  }

  ghost function Escaped(c: byte): (r: nat) {
    if c == Ch('"') || c == Ch('\\') || c == Ch('/') then c
    else if c == Ch('b') then 8
    else if c == Ch('f') then 12
    else if c == Ch('n') then 10
    else if c == Ch('r') then 13
    else if c == Ch('t') then 9
    else 0
  }

  /** A \u escape whose digits start at `p`: one code point, which is a scalar
      value other than NUL, from one or two quads. */
  ghost function UnicodeEscape(t: seq<byte>, p: nat): (r: At<nat>)
    requires Terminated(t) && p < |t|
    ensures r.Got? ==> p + 4 <= r.end < |t| && Scalar(r.value)
  {
    match HexQuad(t, p)
    case No => No
    case Got(quad, q) =>
      if 0xD800 <= quad <= 0xDBFF then
        if t[q] != Ch('\\') || t[q + 1] != Ch('u') then No
        else
          match HexQuad(t, q + 2)
          case No => No
          case Got(low, end) => if 0xDC00 <= low <= 0xDFFF then Got(Pair(quad, low), end) else No
      else if 0xDC00 <= quad <= 0xDFFF || quad == 0 then No
      else Got(quad, q)
  }

  /** One character of a string. */
  ghost function CharAt(t: seq<byte>, p: nat): (r: At<nat>)
    requires Terminated(t) && p < |t| && t[p] != 0
    ensures r.Got? ==> p < r.end < |t| && Scalar(r.value)
  {
    var c := t[p];
    if c == Ch('\\') then
      if t[p + 1] == 0 then No
      else if t[p + 1] == Ch('u') then UnicodeEscape(t, p + 2)
      else if Escaped(t[p + 1]) == 0 then No
      else Got(Escaped(t[p + 1]), p + 2)
    else if c < 0x20 then No
    else if c < 0x80 then Got(c, p + 1)
    else if RawLen(t, p) == 0 then No
    else Got(RawScalar(t, p), p + RawLen(t, p))
  }

  /** The characters from `p` up to a closing quote. */
  ghost function CharsAt(t: seq<byte>, p: nat): (r: At<seq<nat>>)
    requires Terminated(t) && p < |t|
    ensures r.Got? ==> p < r.end < |t| && AllScalar(r.value)
    decreases |t| - p
  {
    if t[p] == 0 then No
    else if t[p] == Ch('"') then Got([], p + 1)
    else
      match CharAt(t, p)
      case No => No
      case Got(cp, q) =>
        match CharsAt(t, q)
        case No => No
        case Got(cps, end) => Got([cp] + cps, end)
  }

  /** A string at `p`, as the code points it stands for. */
  ghost function StringAt(t: seq<byte>, p: nat): (r: At<seq<nat>>)
    requires Terminated(t) && p < |t|
    ensures r.Got? ==> p < r.end < |t| && AllScalar(r.value)
  {
    if t[p] != Ch('"') then No else CharsAt(t, p + 1)
  }

  /** A character takes no more bytes decoded than it does in the text. */
  lemma CharShrinks(t: seq<byte>, p: nat)
    requires Terminated(t) && p < |t| && t[p] != 0 && CharAt(t, p).Got?
    ensures |Encode(CharAt(t, p).value)| <= CharAt(t, p).end - p
  {
    if t[p] >= 0x80 {
      RawIsEncoded(t, p);
    }
  }

  lemma EncodeSnoc(cps: seq<nat>, cp: nat)
    requires AllScalar(cps) && Scalar(cp)
    ensures AllScalar(cps + [cp]) && EncodeAll(cps + [cp]) == EncodeAll(cps) + Encode(cp)
  {
    hide Encode, Scalar;
    assert (cps + [cp])[..|cps|] == cps;
  }

  lemma {:induction false} EncodeAllAppend(a: seq<nat>, b: seq<nat>)
    requires AllScalar(a) && AllScalar(b)
    ensures AllScalar(a + b) && EncodeAll(a + b) == EncodeAll(a) + EncodeAll(b)
    decreases |b|
  {
    hide Encode, Scalar, EncodeAll;
    if b == [] {
      assert a + b == a;
      NothingRead(No);
    } else {
      var b0, x := b[..|b| - 1], b[|b| - 1];
      EncodeAllAppend(a, b0);
      EncodeSnoc(b0, x);
      EncodeSnoc(a + b0, x);
      assert b == b0 + [x] && a + b == a + b0 + [x];
    }
  }

  lemma EncodeAllOne(cp: nat)
    requires Scalar(cp)
    ensures AllScalar([cp]) && EncodeAll([cp]) == Encode(cp)
  {
    assert [cp][..0] == [];
  }

  /** `json_hex_quad`. */
  method ReadQuad(t: seq<byte>, p: nat) returns (r: At<nat>)
    requires Terminated(t) && p < |t|
    ensures r == HexQuad(t, p)
  {
    var value: nat := 0;
    var i := 0;
    while i < 4
      invariant 0 <= i <= 4 && p + i < |t|
      invariant (i >= 1 ==> HexDigit(t[p]) >= 0) && (i >= 2 ==> HexDigit(t[p + 1]) >= 0)
      invariant (i >= 3 ==> HexDigit(t[p + 2]) >= 0) && (i >= 4 ==> HexDigit(t[p + 3]) >= 0)
      invariant value == match i
                         case 0 => 0
                         case 1 => HexDigit(t[p])
                         case 2 => HexDigit(t[p]) * 16 + HexDigit(t[p + 1])
                         case 3 => HexDigit(t[p]) * 256 + HexDigit(t[p + 1]) * 16 + HexDigit(t[p + 2])
                         case _ => HexDigit(t[p]) * 4096 + HexDigit(t[p + 1]) * 256 + HexDigit(t[p + 2]) * 16 + HexDigit(t[p + 3])
    {
      var digit := HexDigit(t[p + i]);
      if digit < 0 {
        return No;
      }
      value := value * 16 + digit;
      i := i + 1;
    }
    return Got(value, p + 4);
  }

  /** What is read of a character: the bytes it is stored as. */
  ghost function Stored(r: At<nat>): At<seq<byte>>
    requires r.Got? ==> Scalar(r.value)
  {
    match r
    case No => No
    case Got(cp, q) => Got(Encode(cp), q)
  }

  /** The `u` case of `parse_json_string`, and `append_json_codepoint`. */
  method ReadUnicodeEscape(t: seq<byte>, p: nat) returns (r: At<seq<byte>>)
    requires Terminated(t) && p < |t|
    ensures r == Stored(UnicodeEscape(t, p))
  {
    hide HexQuad;
    var quad := ReadQuad(t, p);
    if quad.No? {
      return No;
    }
    var cp, q := quad.value, quad.end;
    if 0xD800 <= cp <= 0xDBFF {
      if t[q] != Ch('\\') || t[q + 1] != Ch('u') {
        return No;
      }
      var low := ReadQuad(t, q + 2);
      if low.No? || low.value < 0xDC00 || low.value > 0xDFFF {
        return No;
      }
      cp, q := 0x10000 + (cp - 0xD800) * 0x400 + (low.value - 0xDC00), low.end;
    } else if 0xDC00 <= cp <= 0xDFFF {
      return No;
    }
    if !Scalar(cp) {
      return No;
    }
    return Got(Encode(cp), q);
  }

  /** One round of `parse_json_string`. */
  method ReadChar(t: seq<byte>, p: nat) returns (r: At<seq<byte>>)
    requires Terminated(t) && p < |t| && t[p] != 0
    ensures r == Stored(CharAt(t, p))
  {
    hide UnicodeEscape, RawScalar;
    var c := t[p];
    if c == Ch('\\') {
      c := t[p + 1];
      if c == Ch('u') {
        r := ReadUnicodeEscape(t, p + 2);
        return;
      }
      if c == Ch('"') || c == Ch('\\') || c == Ch('/') {
        return Got([c], p + 2);
      }
      if c == Ch('b') {
        return Got([8], p + 2);
      }
      if c == Ch('f') {
        return Got([12], p + 2);
      }
      if c == Ch('n') {
        return Got([10], p + 2);
      }
      if c == Ch('r') {
        return Got([13], p + 2);
      }
      if c == Ch('t') {
        return Got([9], p + 2);
      }
      return No;
    }
    if c < 0x20 {
      return No;
    }
    if c >= 0x80 {
      var n := RawLen(t, p);
      if n == 0 {
        return No;
      }
      RawIsEncoded(t, p);
      return Got(t[p..p + n], p + n);
    }
    return Got([c], p + 1);
  }

  /** A text being read: `cps` are behind, and the rest starts at `p`. */
  ghost function Joined(cps: seq<nat>, rest: At<seq<nat>>): At<seq<nat>> {
    match rest
    case No => No
    case Got(more, end) => Got(cps + more, end)
  }

  lemma OneMoreChar(t: seq<byte>, p: nat, cps: seq<nat>)
    requires Terminated(t) && p < |t| && t[p] != 0 && t[p] != Ch('"')
    ensures CharAt(t, p).No? ==> Joined(cps, CharsAt(t, p)).No?
    ensures CharAt(t, p).Got? ==> Joined(cps, CharsAt(t, p)) == Joined(cps + [CharAt(t, p).value], CharsAt(t, CharAt(t, p).end))
  {
    hide CharAt;
    if CharAt(t, p).Got? {
      var rest := CharsAt(t, CharAt(t, p).end);
      if rest.Got? {
        assert cps + ([CharAt(t, p).value] + rest.value) == cps + [CharAt(t, p).value] + rest.value;
      }
    }
  }

  lemma {:induction false} EncodedGrows(cps: seq<nat>, more: seq<nat>)
    requires AllScalar(cps) && AllScalar(more)
    ensures AllScalar(cps + more) && |EncodeAll(cps + more)| >= |EncodeAll(cps)|
  {
    EncodeAllAppend(cps, more);
  }

  /** What a buffer of `cap` bytes, one of them for the NUL, can take of a string. */
  ghost function Fitted(r: At<seq<nat>>, cap: nat): At<seq<byte>>
    requires r.Got? ==> AllScalar(r.value)
  {
    match r
    case No => No
    case Got(cps, end) => if |EncodeAll(cps)| < cap then Got(EncodeAll(cps), end) else No
  }

  /** `parse_json_string`: the string's code points in UTF-8, when they fit. */
  method ParseString(t: seq<byte>, start: nat, cap: nat) returns (r: At<seq<byte>>)
    requires Terminated(t) && start < |t| && cap > 0
    ensures r == Fitted(StringAt(t, start), cap)
  {
    hide CharAt, Encode, EncodeAll;
    if t[start] != Ch('"') {
      return No;
    }
    var p, out := start + 1, [];
    ghost var cps: seq<nat> := [];
    NothingRead(CharsAt(t, p));
    while t[p] != 0 && t[p] != Ch('"')
      invariant start < p < |t| && AllScalar(cps) && out == EncodeAll(cps) && |out| < cap
      invariant StringAt(t, start) == Joined(cps, CharsAt(t, p))
      decreases |t| - p
    {
      OneMoreChar(t, p, cps);
      var c := ReadChar(t, p);
      if c.No? {
        return No;
      }
      ghost var cp := CharAt(t, p).value;
      EncodeAllAppend(cps, [cp]);
      EncodeAllOne(cp);
      if |c.value| >= cap - |out| {
        ghost var rest := CharsAt(t, c.end);
        if rest.Got? {
          EncodedGrows(cps + [cp], rest.value);
        }
        return No;
      }
      out, cps, p := out + c.value, cps + [cp], c.end;
    }
    if t[p] != Ch('"') {
      return No;
    }
    assert cps + [] == cps;
    return Got(out, p + 1);
  }

  lemma NothingRead(rest: At<seq<nat>>)
    ensures Joined([], rest) == rest && AllScalar([]) && EncodeAll([]) == []
  {
    if rest.Got? {
      assert [] + rest.value == rest.value;
    }
  }

  /** A decoded string is shorter than its text by the two quotes at least. */
  lemma {:induction false} StringShrinks(t: seq<byte>, p: nat)
    requires Terminated(t) && p < |t| && CharsAt(t, p).Got?
    ensures |EncodeAll(CharsAt(t, p).value)| + 1 <= CharsAt(t, p).end - p
    decreases |t| - p
  {
    hide CharAt, Encode, EncodeAll;
    if t[p] == Ch('"') {
      NothingRead(No);
    } else {
      var c := CharAt(t, p);
      CharShrinks(t, p);
      StringShrinks(t, c.end);
      EncodeAllOne(c.value);
      EncodeAllAppend([c.value], CharsAt(t, c.end).value);
    }
  }

  /** A string never decodes to a NUL byte. */
  lemma {:induction false} NoNulInside(cps: seq<nat>)
    requires AllScalar(cps)
    ensures forall i :: 0 <= i < |EncodeAll(cps)| ==> EncodeAll(cps)[i] != 0
    decreases |cps|
  {
    if cps != [] {
      NoNulInside(cps[..|cps| - 1]);
    }
  }

  /** A character that may stand for itself. */
  ghost predicate Plain(cp: nat) {
    Scalar(cp) && cp >= 0x20 && cp != Ch('"') && cp != Ch('\\')
  }

  /** Text that needs no escapes reads as what it says. */
  lemma {:induction false} PlainReads(t: seq<byte>, p: nat, cps: seq<nat>)
    requires Terminated(t) && forall i :: 0 <= i < |cps| ==> Plain(cps[i])
    requires AllScalar(cps) && p + |EncodeAll(cps)| < |t| && t[p..p + |EncodeAll(cps)|] == EncodeAll(cps) && t[p + |EncodeAll(cps)|] == Ch('"')
    ensures CharsAt(t, p) == Got(cps, p + |EncodeAll(cps)| + 1)
    decreases |cps|
  {
    hide CharAt, EncodeAll, Encode;
    if cps == [] {
      NothingRead(No);
    } else {
      var e, first, rest := EncodeAll(cps), Encode(cps[0]), cps[1..];
      assert cps == [cps[0]] + rest;
      EncodeAllOne(cps[0]);
      EncodeAllAppend([cps[0]], rest);
      var q := p + |first|;
      assert t[p..q] == t[p..p + |e|][..|first|] == first;
      assert t[q..q + |EncodeAll(rest)|] == t[p..p + |e|][|first|..] == EncodeAll(rest);
      PlainReads(t, q, rest);
      PlainCharReads(t, p, cps[0]);
    }
  }

  lemma PlainCharReads(t: seq<byte>, p: nat, cp: nat)
    requires Terminated(t) && Plain(cp) && p + |Encode(cp)| < |t| && t[p..p + |Encode(cp)|] == Encode(cp)
    ensures t[p] != 0 && t[p] != Ch('"') && CharAt(t, p) == Got(cp, p + |Encode(cp)|)
  {
    assert t[p..p + |Encode(cp)|][0] == t[p];
    if cp > 0x7F {
      EncodedIsRaw(t, p, cp);
    }
  }

  // ---- Numbers (section 6 of RFC 8259) ----

  predicate IsDigit(c: byte) {
    Ch('0') <= c <= Ch('9')
  }

  /** Where the run of digits at `p` ends. */
  ghost function DigitsEnd(t: seq<byte>, p: nat): (e: nat)
    requires Terminated(t) && p < |t|
    ensures p <= e < |t| && !IsDigit(t[e]) && (IsDigit(t[p]) ==> e > p)
    decreases |t| - p
  {
    if IsDigit(t[p]) then DigitsEnd(t, p + 1) else p
  }

  /** The number that the digits from `p` to `e` write. */
  ghost function Decimal(t: seq<byte>, p: nat, e: nat): (v: nat)
    requires p <= e <= |t| && forall i :: p <= i < e ==> IsDigit(t[i])
  {
    if p == e then 0
    else
      assert IsDigit(t[e - 1]);
      Decimal(t, p, e - 1) * 10 + (t[e - 1] - Ch('0'))
  }

  lemma {:induction false} DigitsAre(t: seq<byte>, p: nat)
    requires Terminated(t) && p < |t|
    ensures forall i :: p <= i < DigitsEnd(t, p) ==> IsDigit(t[i])
    decreases |t| - p
  {
    if IsDigit(t[p]) {
      DigitsAre(t, p + 1);
    }
  }

  const UINT64_MAX := 0xFFFF_FFFF_FFFF_FFFF

  lemma {:induction false} DecimalGrows(t: seq<byte>, p: nat, e: nat, e': nat)
    requires p <= e <= e' <= |t| && forall i :: p <= i < e' ==> IsDigit(t[i])
    ensures Decimal(t, p, e) <= Decimal(t, p, e')
    decreases e'
  {
    if e < e' {
      DecimalGrows(t, p, e, e' - 1);
    }
  }

  /** A whole number without leading zeros that 64 bits hold. */
  ghost function U64At(t: seq<byte>, p: nat): (r: At<nat>)
    requires Terminated(t) && p < |t|
    ensures r.Got? ==> p < r.end < |t| && r.value <= UINT64_MAX
  {
    var e := DigitsEnd(t, p);
    DigitsAre(t, p);
    if e > p && (t[p] != Ch('0') || e == p + 1) && Decimal(t, p, e) <= UINT64_MAX then Got(Decimal(t, p, e), e) else No
  }

  /** `parse_json_u64`, with no intermediate value past 64 bits. */
  method ParseU64(t: seq<byte>, start: nat) returns (r: At<nat>)
    requires Terminated(t) && start < |t|
    ensures r == U64At(t, start)
  {
    DigitsAre(t, start);
    ghost var e := DigitsEnd(t, start);
    if !IsDigit(t[start]) {
      return No;
    }
    if t[start] == Ch('0') && IsDigit(t[start + 1]) {
      return No;
    }
    var p, value: nat := start, 0;
    while p == start || IsDigit(t[p])
      invariant start <= p <= e && value == Decimal(t, start, p) <= UINT64_MAX && (p > start || p < e)
      decreases |t| - p
    {
      var digit := t[p] - Ch('0');
      DecimalGrows(t, start, p + 1, e);
      if value > (UINT64_MAX - digit) / 10 {
        return No;
      }
      value := value * 10 + digit;
      p := p + 1;
    }
    return Got(value, p);
  }

  /** Where a value that is skipped ends, or that there is none. */
  datatype End = To(end: nat) | Bad

  predicate IsWs(c: byte) {
    c == Ch(' ') || c == 9 || c == 13 || c == 10
  }

  ghost function SkipWs(t: seq<byte>, p: nat): (q: nat)
    requires Terminated(t) && p < |t|
    ensures p <= q < |t| && !IsWs(t[q])
    decreases |t| - p
  {
    if IsWs(t[p]) then SkipWs(t, p + 1) else p
  }

  /** `json_token_finished`: what may follow a number or a literal. */
  predicate Finished(c: byte) {
    c == 0 || c == Ch(',') || c == Ch('}') || c == Ch(']') || IsWs(c)
  }

  /** The digits that must be at `p`. */
  ghost function SomeDigits(t: seq<byte>, p: nat): (r: End)
    requires Terminated(t) && p < |t|
    ensures r.To? ==> p < r.end < |t|
  {
    if IsDigit(t[p]) then To(DigitsEnd(t, p)) else Bad
  }

  ghost function IntPart(t: seq<byte>, p: nat): (r: End)
    requires Terminated(t) && p < |t|
    ensures r.To? ==> p < r.end < |t|
  {
    if t[p] == Ch('0') then To(p + 1) else SomeDigits(t, p)
  }

  ghost function FracPart(t: seq<byte>, p: nat): (r: End)
    requires Terminated(t) && p < |t|
    ensures r.To? ==> p <= r.end < |t|
  {
    if t[p] == Ch('.') then SomeDigits(t, p + 1) else To(p)
  }

  ghost function ExpPart(t: seq<byte>, p: nat): (r: End)
    requires Terminated(t) && p < |t|
    ensures r.To? ==> p <= r.end < |t|
  {
    if t[p] != Ch('e') && t[p] != Ch('E') then To(p)
    else if t[p + 1] == Ch('+') || t[p + 1] == Ch('-') then SomeDigits(t, p + 2)
    else SomeDigits(t, p + 1)
  }

  /** A number: sign, whole part, fraction, exponent, and then a delimiter. */
  ghost function NumberAt(t: seq<byte>, p: nat): (r: End)
    requires Terminated(t) && p < |t|
    ensures r.To? ==> p < r.end < |t|
  {
    match IntPart(t, if t[p] == Ch('-') then p + 1 else p)
    case Bad => Bad
    case To(q) =>
      match FracPart(t, q)
      case Bad => Bad
      case To(f) =>
        match ExpPart(t, f)
        case Bad => Bad
        case To(e) => if Finished(t[e]) then To(e) else Bad
  }

  const TRUE: seq<byte> := [0x74, 0x72, 0x75, 0x65]
  const FALSE: seq<byte> := [0x66, 0x61, 0x6C, 0x73, 0x65]
  const NULL: seq<byte> := [0x6E, 0x75, 0x6C, 0x6C]

  /** A word and then a delimiter. */
  predicate Word(t: seq<byte>, p: nat, w: seq<byte>) {
    p + |w| < |t| && t[p..p + |w|] == w && Finished(t[p + |w|])
  }

  // ---- Values (sections 2 to 5 of RFC 8259) ----

  ghost function Closer(isObject: bool): byte {
    if isObject then Ch('}') else Ch(']')
  }

  /** A member's name and colon: where its value starts. */
  ghost function KeyAt(t: seq<byte>, p: nat): (r: End)
    requires Terminated(t) && p < |t|
    ensures r.To? ==> p < r.end < |t|
  {
    match StringAt(t, p)
    case No => Bad
    case Got(_, e) => if t[SkipWs(t, e)] == Ch(':') then To(SkipWs(t, SkipWs(t, e) + 1)) else Bad
  }

  /** Where the value of the next member or element starts. */
  ghost function EntryAt(t: seq<byte>, p: nat, isObject: bool): (r: End)
    requires Terminated(t) && p < |t|
    ensures r.To? ==> p <= r.end < |t|
  {
    if isObject then KeyAt(t, p) else To(p)
  }

  /** Any value at `p`. */
  ghost function ValueAt(t: seq<byte>, p: nat): (r: End)
    requires Terminated(t) && p < |t|
    ensures r.To? ==> p < r.end < |t|
    decreases |t| - p, 1
  {
    if t[p] == Ch('{') || t[p] == Ch('[') then ContainerAt(t, p, t[p] == Ch('{'))
    else ScalarAt(t, p)
  }

  ghost function ScalarAt(t: seq<byte>, p: nat): (r: End)
    requires Terminated(t) && p < |t|
    ensures r.To? ==> p < r.end < |t|
  {
    if t[p] == Ch('"') then (match StringAt(t, p) case No => Bad case Got(_, e) => To(e))
    else if t[p] == Ch('t') || t[p] == Ch('f') then
      if Word(t, p, TRUE) then To(p + 4) else if Word(t, p, FALSE) then To(p + 5) else Bad
    else if Word(t, p, NULL) then To(p + 4)
    else NumberAt(t, p)
  }

  /** An object or an array whose opening bracket is at `p`. */
  ghost function ContainerAt(t: seq<byte>, p: nat, isObject: bool): (r: End)
    requires Terminated(t) && p < |t| && t[p] != 0
    ensures r.To? ==> p < r.end < |t|
    decreases |t| - p, 0
  {
    var q := SkipWs(t, p + 1);
    if t[q] == Closer(isObject) then To(q + 1)
    else
      match EntryAt(t, q, isObject)
      case Bad => Bad
      case To(v) =>
        match ValueAt(t, v)
        case Bad => Bad
        case To(e) => RestAt(t, e, isObject)
  }

  /** What follows a value inside a container: its end, or a comma and another. */
  ghost function RestAt(t: seq<byte>, p: nat, isObject: bool): (r: End)
    requires Terminated(t) && p < |t|
    ensures r.To? ==> p < r.end < |t|
    decreases |t| - p, 1
  {
    var q := SkipWs(t, p);
    if t[q] == Closer(isObject) then To(q + 1)
    else if t[q] != Ch(',') then Bad
    else
      match EntryAt(t, SkipWs(t, q + 1), isObject)
      case Bad => Bad
      case To(v) =>
        match ValueAt(t, v)
        case Bad => Bad
        case To(e) => RestAt(t, e, isObject)
  }

  // ---- The reader's explicit stack ----

  /** What is left to read once a value has ended at `p` inside the open
      containers `open`, outermost first. */
  ghost function After(t: seq<byte>, p: nat, open: seq<bool>): (r: End)
    requires Terminated(t) && p < |t|
    decreases |t| - p, |open|, 0
  {
    if open == [] then To(p)
    else
      match RestAt(t, p, open[|open| - 1])
      case Bad => Bad
      case To(e) => After(t, e, open[..|open| - 1])
  }

  /** What is left to read when a value must start at `p` inside `open`. */
  ghost function Expect(t: seq<byte>, p: nat, open: seq<bool>): (r: End)
    requires Terminated(t) && p < |t|
  {
    match ValueAt(t, p)
    case Bad => Bad
    case To(e) => After(t, e, open)
  }

  /** Opening a container: its first entry is expected inside it. */
  lemma Opens(t: seq<byte>, p: nat, open: seq<bool>)
    requires Terminated(t) && p < |t| && t[p] != 0 && (t[p] == Ch('{') || t[p] == Ch('['))
    ensures var isObject, q := t[p] == Ch('{'), SkipWs(t, p + 1);
            if t[q] == Closer(isObject) then Expect(t, p, open) == After(t, q + 1, open)
            else
              var v := EntryAt(t, q, isObject);
              Expect(t, p, open) == if v.Bad? then Bad else Expect(t, v.end, open + [isObject])
  {
    hide ScalarAt, SkipWs, EntryAt, RestAt;
    var isObject, q := t[p] == Ch('{'), SkipWs(t, p + 1);
    assert (open + [isObject])[..|open|] == open;
    assert ValueAt(t, p) == ContainerAt(t, p, isObject);
    if t[q] != Closer(isObject) && EntryAt(t, q, isObject).To? {
      var v := EntryAt(t, q, isObject).end;
      assert ValueAt(t, p) == match ValueAt(t, v) case Bad => Bad case To(e) => RestAt(t, e, isObject);
    }
  }

  /** A value has ended inside a container: the container ends, or its next entry is expected. */
  lemma Goes(t: seq<byte>, p: nat, open: seq<bool>)
    requires Terminated(t) && p < |t| && open != []
    ensures var isObject, q := open[|open| - 1], SkipWs(t, p);
            if t[q] == Closer(isObject) then After(t, p, open) == After(t, q + 1, open[..|open| - 1])
            else if t[q] != Ch(',') then After(t, p, open) == Bad
            else
              var v := EntryAt(t, SkipWs(t, q + 1), isObject);
              After(t, p, open) == if v.Bad? then Bad else Expect(t, v.end, open)
  {
  }

  const GEN_PARAMS_MAX := 3841

  /** A string skipped into a scratch buffer that is large enough is just skipped. */
  lemma FitsScratch(t: seq<byte>, p: nat, cap: nat)
    requires Terminated(t) && p < |t| && StringAt(t, p).Got? && |t| <= cap
    ensures Fitted(StringAt(t, p), cap).Got?
  {
    hide CharsAt, EncodeAll;
    StringShrinks(t, p + 1);
  }

  /** `skip_ws`. */
  method PassWs(t: seq<byte>, start: nat) returns (p: nat)
    requires Terminated(t) && start < |t|
    ensures p == SkipWs(t, start)
  {
    p := start;
    while t[p] == Ch(' ') || t[p] == Ch('\t') || t[p] == Ch('\r') || t[p] == Ch('\n')
      invariant start <= p < |t| && SkipWs(t, start) == SkipWs(t, p)
      decreases |t| - p
    {
      p := p + 1;
    }
  }

  /** `parse_json_key`, with the name in `cap` bytes of scratch. */
  method ParseKey(t: seq<byte>, start: nat, cap: nat) returns (r: At<seq<byte>>)
    requires Terminated(t) && start < |t| && cap > 0
    ensures r.Got? ==> KeyAt(t, start) == To(r.end) && Fitted(StringAt(t, start), cap).Got? && r.value == Fitted(StringAt(t, start), cap).value
    ensures r.No? ==> KeyAt(t, start).Bad? || Fitted(StringAt(t, start), cap).No?
  {
    hide SkipWs, StringAt;
    var name := ParseString(t, start, cap);
    if name.No? {
      return No;
    }
    var p := PassWs(t, name.end);
    if t[p] != Ch(':') {
      return No;
    }
    p := PassWs(t, p + 1);
    return Got(name.value, p);
  }

  /** `skip_json_number`. */
  method SkipNumber(t: seq<byte>, start: nat) returns (r: End)
    requires Terminated(t) && start < |t|
    ensures r == NumberAt(t, start)
  {
    hide DigitsEnd, ExpPart;
    var p := start;
    if t[p] == Ch('-') {
      p := p + 1;
    }
    if t[p] == Ch('0') {
      p := p + 1;
    } else if IsDigit(t[p]) {
      p := PassDigits(t, p);
    } else {
      return Bad;
    }
    if t[p] == Ch('.') {
      p := p + 1;
      if !IsDigit(t[p]) {
        return Bad;
      }
      p := PassDigits(t, p);
    }
    var e := SkipExponent(t, p);
    if e.Bad? || !Finished(t[e.end]) {
      return Bad;
    }
    return e;
  }

  method SkipExponent(t: seq<byte>, start: nat) returns (r: End)
    requires Terminated(t) && start < |t|
    ensures r == ExpPart(t, start)
  {
    hide DigitsEnd;
    var p := start;
    if t[p] == Ch('e') || t[p] == Ch('E') {
      p := p + 1;
      if t[p] == Ch('+') || t[p] == Ch('-') {
        p := p + 1;
      }
      if !IsDigit(t[p]) {
        return Bad;
      }
      p := PassDigits(t, p);
    }
    return To(p);
  }

  method PassDigits(t: seq<byte>, start: nat) returns (p: nat)
    requires Terminated(t) && start < |t|
    ensures p == DigitsEnd(t, start)
  {
    p := start;
    while IsDigit(t[p])
      invariant start <= p < |t| && DigitsEnd(t, start) == DigitsEnd(t, p)
      decreases |t| - p
    {
      p := p + 1;
    }
  }

  /** The branches of `skip_json_value` for a value that is not a container. */
  method SkipScalar(t: seq<byte>, p: nat, cap: nat) returns (r: End)
    requires Terminated(t) && p < |t| && cap > 0
    ensures r.To? ==> ScalarAt(t, p) == r
    ensures |t| <= cap ==> ScalarAt(t, p) == r
  {
    hide NumberAt, StringAt;
    if t[p] == Ch('"') {
      if StringAt(t, p).Got? && |t| <= cap {
        FitsScratch(t, p, cap);
      }
      var s := ParseString(t, p, cap);
      return if s.No? then Bad else To(s.end);
    }
    if t[p] == Ch('t') || t[p] == Ch('f') {
      return if Word(t, p, TRUE) then To(p + 4) else if Word(t, p, FALSE) then To(p + 5) else Bad;
    }
    if Word(t, p, NULL) {
      return To(p + 4);
    }
    r := SkipNumber(t, p);
  }

  /** Where the next value starts inside a container, with the name of a member in scratch. */
  method NextEntry(t: seq<byte>, p: nat, isObject: bool, cap: nat) returns (r: End)
    requires Terminated(t) && p < |t| && cap > 0
    ensures r.To? ==> EntryAt(t, p, isObject) == r
    ensures |t| <= cap ==> EntryAt(t, p, isObject) == r
  {
    hide StringAt;
    if !isObject {
      return To(p);
    }
    if StringAt(t, p).Got? && |t| <= cap {
      FitsScratch(t, p, cap);
    }
    var key := ParseKey(t, p, cap);
    return if key.No? then Bad else To(key.end);
  }

  /** `skip_json_value`: what it accepts is a value, and where it stops is the
      value's end. On texts that the agent gives it, which are shorter than the
      stack and the scratch buffer, it accepts every value: neither can fill. */
  method SkipValue(t: seq<byte>, start: nat, cap: nat) returns (r: End)
    requires Terminated(t) && start < |t| && cap > 0
    ensures r.To? ==> ValueAt(t, start) == r
    ensures |t| <= GEN_PARAMS_MAX && |t| <= cap ==> ValueAt(t, start) == r
  {
    hide ValueAt, After, Expect, ScalarAt, EntryAt, SkipWs;
    var open: seq<bool> := [];
    var p := start;
    ExpectAlone(t, start);
    while true
      invariant start <= p < |t| && |open| <= p - start && |open| <= GEN_PARAMS_MAX
      invariant Expect(t, p, open) == ValueAt(t, start)
      decreases |t| - p
    {
      ghost var before := p;
      if t[p] == Ch('{') || t[p] == Ch('[') {
        Opens(t, p, open);
        if |open| == GEN_PARAMS_MAX {
          return Bad;
        }
        var isObject := t[p] == Ch('{');
        p := PassWs(t, p + 1);
        if t[p] != (if isObject then Ch('}') else Ch(']')) {
          var v := NextEntry(t, p, isObject, cap);
          if v.Bad? {
            return Bad;
          }
          open, p := open + [isObject], v.end;
          continue;
        }
        p := p + 1;
      } else {
        ExpectScalar(t, p, open);
        var v := SkipScalar(t, p, cap);
        if v.Bad? {
          return Bad;
        }
        p := v.end;
      }
      while true
        invariant before < p < |t| && |open| <= p - start && |open| <= GEN_PARAMS_MAX
        invariant After(t, p, open) == ValueAt(t, start)
        decreases |t| - p, |open|
      {
        if open == [] {
          AfterAll(t, p);
          return To(p);
        }
        var isObject := open[|open| - 1];
        Goes(t, p, open);
        p := PassWs(t, p);
        if t[p] == (if isObject then Ch('}') else Ch(']')) {
          p, open := p + 1, open[..|open| - 1];
          continue;
        }
        if t[p] != Ch(',') {
          return Bad;
        }
        p := PassWs(t, p + 1);
        var v := NextEntry(t, p, isObject, cap);
        if v.Bad? {
          return Bad;
        }
        p := v.end;
        break;
      }
    }
  }

  lemma ExpectAlone(t: seq<byte>, p: nat)
    requires Terminated(t) && p < |t|
    ensures Expect(t, p, []) == ValueAt(t, p)
  {
  }

  lemma AfterAll(t: seq<byte>, p: nat)
    requires Terminated(t) && p < |t|
    ensures After(t, p, []) == To(p)
  {
  }

  lemma ExpectScalar(t: seq<byte>, p: nat, open: seq<bool>)
    requires Terminated(t) && p < |t| && t[p] != Ch('{') && t[p] != Ch('[')
    ensures Expect(t, p, open) == match ScalarAt(t, p) case Bad => Bad case To(e) => After(t, e, open)
  {
  }
}
