/** What is read at a position depends on the bytes read and on nothing before
    or after them: the same bytes elsewhere, in any other text, read the same
    (guest/minimal-initrd/request.c). */
module JsonMoves {
  import opened Bytes
  import opened Utf8
  import opened Json

  /** The bytes of `t` from `p` to `e` stand in `t'` as well, `d` further on. */
  ghost predicate Agrees(t: seq<byte>, t': seq<byte>, p: nat, e: nat, d: int) {
    p <= e <= |t| && 0 <= p + d && e + d <= |t'| && forall i {:trigger t[i]} :: p <= i < e ==> t'[i + d] == t[i]
  }

  lemma {:induction false} WsMoves(t: seq<byte>, t': seq<byte>, p: nat, e: nat, d: int)
    requires Terminated(t) && Terminated(t') && Agrees(t, t', p, e, d) && p < |t| && SkipWs(t, p) < e
    ensures SkipWs(t', p + d) == SkipWs(t, p) + d
    decreases |t| - p
  {
    if IsWs(t[p]) {
      WsMoves(t, t', p + 1, e, d);
    }
  }

  lemma QuadMoves(t: seq<byte>, t': seq<byte>, p: nat, e: nat, d: int)
    requires Terminated(t) && Terminated(t') && Agrees(t, t', p, e, d) && p < |t| && HexQuad(t, p).Got? && p + 4 <= e
    ensures HexQuad(t', p + d) == Got(HexQuad(t, p).value, p + 4 + d)
  {
    hide HexDigit;
  }

  lemma EscapeMoves(t: seq<byte>, t': seq<byte>, p: nat, e: nat, d: int)
    requires Terminated(t) && Terminated(t') && Agrees(t, t', p, e, d) && p < |t| && UnicodeEscape(t, p).Got? && UnicodeEscape(t, p).end <= e
    ensures UnicodeEscape(t', p + d) == Got(UnicodeEscape(t, p).value, UnicodeEscape(t, p).end + d)
  {
    hide HexQuad;
    QuadMoves(t, t', p, e, d);
    if 0xD800 <= HexQuad(t, p).value <= 0xDBFF {
      QuadMoves(t, t', p + 6, e, d);
    }
  }

  lemma RawMoves(t: seq<byte>, t': seq<byte>, p: nat, e: nat, d: int)
    requires Terminated(t) && Terminated(t') && Agrees(t, t', p, e, d) && p < |t| && RawLen(t, p) > 0 && p + RawLen(t, p) <= e
    ensures RawLen(t', p + d) == RawLen(t, p) && RawScalar(t', p + d) == RawScalar(t, p)
  {
    hide Join2, Join3, Join4;
  }

  lemma CharMoves(t: seq<byte>, t': seq<byte>, p: nat, e: nat, d: int)
    requires Terminated(t) && Terminated(t') && Agrees(t, t', p, e, d) && p < |t| && t[p] != 0 && CharAt(t, p).Got? && CharAt(t, p).end <= e
    ensures t'[p + d] == t[p] && CharAt(t', p + d) == Got(CharAt(t, p).value, CharAt(t, p).end + d)
  {
    hide UnicodeEscape, RawLen, RawScalar, Escaped;
    if t[p] == Ch('\\') {
      if t[p + 1] == Ch('u') {
        EscapeMoves(t, t', p + 2, e, d);
      }
    } else if t[p] >= 0x80 {
      RawMoves(t, t', p, e, d);
    }
  }

  lemma {:induction false} CharsMove(t: seq<byte>, t': seq<byte>, p: nat, e: nat, d: int)
    requires Terminated(t) && Terminated(t') && Agrees(t, t', p, e, d) && p < |t| && CharsAt(t, p).Got? && CharsAt(t, p).end <= e
    ensures CharsAt(t', p + d) == Got(CharsAt(t, p).value, CharsAt(t, p).end + d)
    decreases |t| - p
  {
    hide CharAt;
    if t[p] != Ch('"') {
      CharMoves(t, t', p, e, d);
      CharsMove(t, t', CharAt(t, p).end, e, d);
    }
  }

  /** A string is the same string wherever its text stands. */
  lemma StringMoves(t: seq<byte>, t': seq<byte>, p: nat, e: nat, d: int)
    requires Terminated(t) && Terminated(t') && Agrees(t, t', p, e, d) && p < |t| && StringAt(t, p).Got? && StringAt(t, p).end <= e
    ensures StringAt(t', p + d) == Got(StringAt(t, p).value, StringAt(t, p).end + d)
  {
    hide CharsAt;
    CharsMove(t, t', p + 1, e, d);
  }

  /** And so is a member's name and colon, up to where its value starts. */
  lemma KeyMoves(t: seq<byte>, t': seq<byte>, p: nat, e: nat, d: int)
    requires Terminated(t) && Terminated(t') && Agrees(t, t', p, e, d) && p < |t| && KeyAt(t, p).To? && KeyAt(t, p).end < e
    ensures KeyAt(t', p + d) == To(KeyAt(t, p).end + d) && StringAt(t, p).Got?
    ensures StringAt(t', p + d) == Got(StringAt(t, p).value, StringAt(t, p).end + d)
  {
    hide StringAt, SkipWs;
    StringMoves(t, t', p, e, d);
    var colon := SkipWs(t, StringAt(t, p).end);
    WsMoves(t, t', StringAt(t, p).end, e, d);
    WsMoves(t, t', colon + 1, e, d);
  }

  lemma {:induction false} DigitsMove(t: seq<byte>, t': seq<byte>, p: nat, d: int)
    requires Terminated(t) && Terminated(t') && p < |t| && Agrees(t, t', p, DigitsEnd(t, p), d)
    requires DigitsEnd(t, p) + d < |t'| && !IsDigit(t'[DigitsEnd(t, p) + d])
    ensures DigitsEnd(t', p + d) == DigitsEnd(t, p) + d
    decreases |t| - p
  {
    if IsDigit(t[p]) {
      DigitsMove(t, t', p + 1, d);
    }
  }

  lemma {:induction false} DecimalMoves(t: seq<byte>, t': seq<byte>, p: nat, e: nat, d: int)
    requires Agrees(t, t', p, e, d) && (forall i :: p <= i < e ==> IsDigit(t[i])) && forall i :: p + d <= i < e + d ==> IsDigit(t'[i])
    ensures Decimal(t', p + d, e + d) == Decimal(t, p, e)
    decreases e
  {
    if p < e {
      DecimalMoves(t, t', p, e - 1, d);
    }
  }

  /** A number is the same number wherever its digits stand, when no digit follows them. */
  lemma NumberMoves(t: seq<byte>, t': seq<byte>, p: nat, d: int)
    requires Terminated(t) && Terminated(t') && p < |t| && U64At(t, p).Got? && Agrees(t, t', p, U64At(t, p).end, d)
    requires U64At(t, p).end + d < |t'| && !IsDigit(t'[U64At(t, p).end + d])
    ensures U64At(t', p + d) == Got(U64At(t, p).value, U64At(t, p).end + d)
  {
    hide DigitsEnd, Decimal;
    var e := DigitsEnd(t, p);
    DigitsMove(t, t', p, d);
    DigitsAre(t, p);
    DigitsAre(t', p + d);
    DecimalMoves(t, t', p, e, d);
  }

  lemma WordMoves(t: seq<byte>, t': seq<byte>, p: nat, d: int, w: seq<byte>)
    requires Word(t, p, w) && Agrees(t, t', p, p + |w|, d) && p + |w| + d < |t'| && Finished(t'[p + |w| + d])
    ensures Word(t', p + d, w)
  {
    forall i | 0 <= i < |w| ensures t'[p + d..p + d + |w|][i] == w[i] {
      assert t[p..p + |w|][i] == t[p + i];
    }
    assert t'[p + d..p + d + |w|] == w;
  }
}
