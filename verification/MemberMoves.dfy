/** The value of a member depends on its own text alone: wherever that text
    stands, with a delimiter after it, it reads as the same value
    (guest/minimal-initrd/request.c). */
module MemberMoves {
  import opened Bytes
  import opened Utf8
  import opened Json
  import opened JsonMoves
  import opened MemberValues

  lemma BytesMove(t: seq<byte>, t': seq<byte>, p: nat, e: nat, d: int)
    requires Terminated(t) && Terminated(t') && Agrees(t, t', p, e, d) && p < |t| && BytesAt(t, p).Got? && BytesAt(t, p).end <= e
    ensures BytesAt(t', p + d) == Got(BytesAt(t, p).value, BytesAt(t, p).end + d)
  {
    hide StringAt, EncodeAll;
    StringMoves(t, t', p, e, d);
  }

  lemma FieldMoves(t: seq<byte>, t': seq<byte>, p: nat, e: nat, d: int)
    requires Terminated(t) && Terminated(t') && Agrees(t, t', p, e, d) && p < |t|
    requires ItemAt(Fields, t, p).Got? && ItemAt(Fields, t, p).end <= e
    ensures ItemAt(Fields, t', p + d) == Got(ItemAt(Fields, t, p).value, ItemAt(Fields, t, p).end + d)
  {
    hide BytesAt, KeyAt, ListAt;
    var v := KeyAt(t, p).end;
    KeyMoves(t, t', p, e, d);
    NameMoves(t, t', p, e, d);
    BytesMove(t, t', v, e, d);
  }

  lemma NameMoves(t: seq<byte>, t': seq<byte>, p: nat, e: nat, d: int)
    requires Terminated(t) && Terminated(t') && Agrees(t, t', p, e, d) && p < |t| && KeyAt(t, p).To? && KeyAt(t, p).end < e
    ensures BytesAt(t, p).Got? && BytesAt(t', p + d).Got? && BytesAt(t', p + d).value == BytesAt(t, p).value
  {
    hide StringAt, KeyAt, EncodeAll;
    KeyMoves(t, t', p, e, d);
  }

  lemma {:induction false} ItemMoves(k: Shape, t: seq<byte>, t': seq<byte>, p: nat, e: nat, d: int)
    requires Terminated(t) && Terminated(t') && Agrees(t, t', p, e, d) && p < |t| && ItemAt(k, t, p).Got? && ItemAt(k, t, p).end <= e
    ensures ItemAt(k, t', p + d) == Got(ItemAt(k, t, p).value, ItemAt(k, t, p).end + d)
    decreases |t| - p, 1
  {
    hide BytesAt, KeyAt, ListAt;
    match k
    case Texts => BytesMove(t, t', p, e, d);
    case Fields => FieldMoves(t, t', p, e, d);
    case Objects => ListMoves(Fields, t, t', p, e, d);
  }

  lemma {:induction false} ItemsMove(k: Shape, t: seq<byte>, t': seq<byte>, p: nat, e: nat, d: int)
    requires Terminated(t) && Terminated(t') && Agrees(t, t', p, e, d) && p < |t| && ItemsAt(k, t, p).Got? && ItemsAt(k, t, p).end <= e
    ensures ItemsAt(k, t', p + d) == Got(ItemsAt(k, t, p).value, ItemsAt(k, t, p).end + d)
    decreases |t| - p, 2
  {
    hide ItemAt, ItemsAt, SkipWs, ListAt;
    ItemsStep(k, t, p);
    ItemsStep(k, t', p + d);
    ItemMoves(k, t, t', p, e, d);
    var q := SkipWs(t, ItemAt(k, t, p).end);
    WsMoves(t, t', ItemAt(k, t, p).end, e, d);
    if t[q] != Shut(k) {
      WsMoves(t, t', q + 1, e, d);
      ItemsMove(k, t, t', SkipWs(t, q + 1), e, d);
    }
  }

  /** A list is the same list wherever it stands. */
  lemma {:induction false} ListMoves(k: Shape, t: seq<byte>, t': seq<byte>, p: nat, e: nat, d: int)
    requires Terminated(t) && Terminated(t') && Agrees(t, t', p, e, d) && p < |t| && ListAt(k, t, p).Got? && ListAt(k, t, p).end <= e
    ensures ListAt(k, t', p + d) == Got(ListAt(k, t, p).value, ListAt(k, t, p).end + d)
    decreases |t| - p, 0
  {
    hide ItemsAt, SkipWs;
    var q := SkipWs(t, p + 1);
    WsMoves(t, t', p + 1, e, d);
    if t[q] != Shut(k) {
      ItemsMove(k, t, t', q, e, d);
    }
  }

  lemma BoolMoves(t: seq<byte>, t': seq<byte>, p: nat, d: int)
    requires BoolAt(t, p).Got? && Agrees(t, t', p, BoolAt(t, p).end, d) && BoolAt(t, p).end + d < |t'| && Finished(t'[BoolAt(t, p).end + d])
    ensures BoolAt(t', p + d) == Got(BoolAt(t, p).value, BoolAt(t, p).end + d)
  {
    hide Finished;
    WordStarts(t, p);
    WordStarts(t', p + d);
    if BoolAt(t, p).value {
      WordMoves(t, t', p, d, TRUE);
    } else {
      WordMoves(t, t', p, d, FALSE);
    }
  }

  lemma WordStarts(t: seq<byte>, p: nat)
    ensures Word(t, p, TRUE) ==> t[p] == Ch('t')
    ensures Word(t, p, FALSE) ==> t[p] == Ch('f')
    ensures Word(t, p, NULL) ==> t[p] == Ch('n')
  {
    if Word(t, p, TRUE) {
      assert t[p] == t[p..p + 4][0];
    }
    if Word(t, p, FALSE) {
      assert t[p] == t[p..p + 5][0];
    }
    if Word(t, p, NULL) {
      assert t[p] == t[p..p + 4][0];
    }
  }

  lemma TimeMoves(t: seq<byte>, t': seq<byte>, p: nat, d: int)
    requires Terminated(t) && Terminated(t') && p < |t| && TimeAt(t, p).Got? && Agrees(t, t', p, TimeAt(t, p).end, d)
    requires TimeAt(t, p).end + d < |t'| && Finished(t'[TimeAt(t, p).end + d])
    ensures TimeAt(t', p + d) == Got(TimeAt(t, p).value, TimeAt(t, p).end + d)
  {
    hide U64At, Word;
    WordStarts(t', p + d);
    if Word(t, p, NULL) {
      WordMoves(t, t', p, d, NULL);
    } else {
      var q := if t[p] == Ch('-') then p + 1 else p;
      NumberStarts(t, q);
      NumberMoves(t, t', q, d);
    }
  }

  lemma NumberStarts(t: seq<byte>, p: nat)
    requires Terminated(t) && p < |t| && U64At(t, p).Got?
    ensures IsDigit(t[p]) && U64At(t, p).end > p
  {
  }

  /** The value of a member is the same wherever its text stands, when what follows delimits it. */
  lemma ValueMoves(form: Form, t: seq<byte>, t': seq<byte>, p: nat, d: int)
    requires Terminated(t) && Terminated(t') && p < |t| && ValueOf(form, t, p).Got? && Agrees(t, t', p, ValueOf(form, t, p).end, d)
    requires ValueOf(form, t, p).end + d < |t'| && Finished(t'[ValueOf(form, t, p).end + d])
    ensures ValueOf(form, t', p + d) == Got(ValueOf(form, t, p).value, ValueOf(form, t, p).end + d)
  {
    hide U64At, BoolAt, TimeAt, ListAt, StringAt, TextsFit, MountsOf, EncodeAll, TextOk;
    var e := ValueOf(form, t, p).end;
    match form
    case Numeric(_, _) => NumberMoves(t, t', p, d);
    case Boolean => BoolMoves(t, t', p, d);
    case Always => BoolMoves(t, t', p, d);
    case Moment => TimeMoves(t, t', p, d);
    case Argv => ListMoves(Texts, t, t', p, e, d);
    case Env => ListMoves(Texts, t, t', p, e, d);
    case MountList(_) => ListMoves(Objects, t, t', p, e, d);
    case _ => StringMoves(t, t', p, e, d);
  }
}
