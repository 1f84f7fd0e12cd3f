/** What the agent takes from any JSON object that it is given as generation
    params (guest/minimal-initrd/request.c). */
module GenerationTexts {
  import opened Bytes
  import opened Utf8
  import opened Json
  import opened JsonText
  import opened MemberNames
  import opened MemberValues
  import opened Requests
  import opened Generation
  import Values = JsonValues

  datatype Taking = Skips | Takes(member: Member) | Refuses

  /** What becomes of an entry: a member the agent does not know is skipped, one
      that it knows is taken if its value is what it asks for. */
  ghost function TakingOf(e: Values.Entry): Taking {
    var id := IndexIn(EncodeAll(e.name), NAMES);
    if id < 0 then Skips
    else if id < 7 then
      if e.value.Number? && !e.value.negative && e.value.fraction.NoFraction? && e.value.exponent.NoExponent? && e.value.whole <= 0xFFFF_FFFF_FFFF_FFFF
      then Takes(Member(id, Number(e.value.whole))) else Refuses
    else if e.value.String? && |EncodeAll(e.value.characters)| < 128 then Takes(Member(id, Text(EncodeAll(e.value.characters))))
    else Refuses
  }

  /** What is taken from entries, if none of them is refused. */
  ghost function TakenFrom(es: seq<Values.Entry>): Option<seq<Member>> {
    if es == [] then Some([])
    else
      var first, rest := TakingOf(es[0]), TakenFrom(es[1..]);
      if first.Refuses? || rest.None? then None
      else Some((if first.Takes? then [first.member] else []) + rest.value)
  }

  lemma StartsLike(v: Values.Value)
    ensures Values.Text(v)[0] == 0x22 <==> v.String?
    ensures 0x30 <= Values.Text(v)[0] <= 0x39 <==> v.Number? && !v.negative
  {
    hide NumberText, StringText;
  }

  /** What is read of a number's text as a whole number, and what stands after it. */
  lemma WholePart(t: seq<byte>, p: nat, v: Values.Value)
    requires Terminated(t) && v.Number? && !v.negative && Stands(t, p, Values.Text(v)) && Ends(t, p + |Values.Text(v)|)
    ensures p < |t| && U64At(t, p) == if v.whole <= 0xFFFF_FFFF_FFFF_FFFF then Got(v.whole, p + |NumberText(v.whole)|) else No
    ensures v.fraction.NoFraction? && v.exponent.NoExponent? ==> p + |NumberText(v.whole)| == p + |Values.Text(v)|
    ensures !(v.fraction.NoFraction? && v.exponent.NoExponent?) ==> t[p + |NumberText(v.whole)|] in {0x2E, 0x45, 0x65}
  {
    hide NumberText, U64At, Stands, Terminated, Values.Text, Values.FractionText, Values.ExponentText;
    StandsInside(t, p, Values.Text(v));
    Values.NumberParts(false, v.whole, v.fraction, v.exponent);
    var whole, frac, exp := NumberText(v.whole), Values.FractionText(v.fraction), Values.ExponentText(v.exponent);
    var none: seq<byte> := [];
    assert none + (whole + (frac + exp)) == whole + (frac + exp);
    StandsIn(t, p, whole, frac + exp);
    AfterWhole(t, p + |whole|, v);
    NumberReads(t, p, v.whole);
  }

  lemma AfterWhole(t: seq<byte>, p: nat, v: Values.Value)
    requires v.Number? && Stands(t, p, Values.FractionText(v.fraction) + Values.ExponentText(v.exponent))
    requires Ends(t, p + |Values.FractionText(v.fraction) + Values.ExponentText(v.exponent)|)
    ensures !(0x30 <= t[p] <= 0x39)
    ensures if v.fraction.NoFraction? && v.exponent.NoExponent? then |Values.FractionText(v.fraction) + Values.ExponentText(v.exponent)| == 0
            else t[p] in {0x2E, 0x45, 0x65}
  {
    var frac, exp := Values.FractionText(v.fraction), Values.ExponentText(v.exponent);
    if frac + exp != [] {
      StandsFirst(t, p, frac + exp);
      assert (frac + exp)[0] == if frac != [] then frac[0] else exp[0];
    }
  }

  /** A number where the agent asks for one. */
  lemma NumberTaken(t: seq<byte>, p: nat, v: Values.Value, id: nat)
    requires Terminated(t) && Stands(t, p, Values.Text(v)) && Ends(t, p + |Values.Text(v)|) && id < 7
    ensures p < |t|
    ensures var r := KnownAt(t, p, id);
            if v.Number? && !v.negative && v.fraction.NoFraction? && v.exponent.NoExponent? && v.whole <= 0xFFFF_FFFF_FFFF_FFFF
            then r == Got([Member(id, Number(v.whole))], p + |Values.Text(v)|)
            else r.No? || (r.end < |t| && t[r.end] in {0x2E, 0x45, 0x65})
  {
    hide NumberText, Stands, Terminated, Values.Text, Decimal;
    StandsInside(t, p, Values.Text(v));
    StandsFirst(t, p, Values.Text(v));
    StartsLike(v);
    if v.Number? && !v.negative {
      WholePart(t, p, v);
    }
  }

  /** A text where it asks for one. */
  lemma TextTaken(t: seq<byte>, p: nat, v: Values.Value, id: nat)
    requires Terminated(t) && Stands(t, p, Values.Text(v)) && Ends(t, p + |Values.Text(v)|) && id >= 7
    ensures p < |t|
    ensures KnownAt(t, p, id) ==
            if v.String? && |EncodeAll(v.characters)| < 128 then Got([Member(id, Text(EncodeAll(v.characters)))], p + |Values.Text(v)|) else No
  {
    hide CharsAt, Stands, Terminated, EncodeAll;
    StandsInside(t, p, Values.Text(v));
    StandsFirst(t, p, Values.Text(v));
    StartsLike(v);
    if v.String? {
      StringReads(t, p, v.characters);
    }
  }

  /** One entry, up to the comma or brace that follows it. */
  lemma EntryTaken(es: seq<Values.Entry>, t: seq<byte>, p: nat)
    requires Terminated(t) && es != [] && Stands(t, p, Values.EntriesText(true, es))
    ensures p < |t|
    ensures var e := p + |Values.NamePart(true, es[0])| + |Values.Text(es[0].value)|;
            var r := EntryOf(t, p);
            match TakingOf(es[0])
            case Skips => r == Got([], e)
            case Takes(m) => r == Got([m], e)
            case Refuses => r.No? || (r.end < |t| && t[r.end] in {0x2E, 0x45, 0x65})
  {
    hide StringAt, KnownAt, ValueAt, EncodeAll, Stands, Terminated, Values.Text, Values.EntriesText, StringText, NAMES, IndexIn;
    Values.FirstEntry(true, es, t, p);
    var v := p + |Values.NamePart(true, es[0])|;
    NameStands(es, t, p);
    Values.ValueReads(es[0].value, t, v);
    var id := IndexIn(EncodeAll(es[0].name), NAMES);
    NamesAreEleven();
    if 0 <= id < 7 {
      NumberTaken(t, v, es[0].value, id);
    } else if id >= 7 {
      TextTaken(t, v, es[0].value, id);
    }
  }

  lemma NamesAreEleven()
    ensures |NAMES| == 11
  {
  }

  lemma NameStands(es: seq<Values.Entry>, t: seq<byte>, p: nat)
    requires Terminated(t) && es != [] && Stands(t, p, Values.EntriesText(true, es))
    ensures p < |t| && StringAt(t, p).Got? && StringAt(t, p).value == es[0].name
  {
    hide Stands, Terminated, Values.Text, Values.EntriesText, StringText;
    StandsInside(t, p, Values.EntriesText(true, es));
    Values.EntriesParts(true, es);
    var tail := if |es| == 1 then [Values.CloserOf(true)] else [0x2C] + Values.EntriesText(true, es[1..]);
    var name := es[0].name;
    StandsIn(t, p, StringText(name) + [0x3A], Values.Text(es[0].value) + tail);
    StandsIn(t, p, StringText(name), [0x3A]);
    StringReads(t, p, name);
  }

  lemma {:induction false} EntriesTaken(es: seq<Values.Entry>, t: seq<byte>, p: nat)
    requires Terminated(t) && es != [] && Stands(t, p, Values.EntriesText(true, es))
    ensures p < |t|
    ensures EntriesAt(t, p) == if TakenFrom(es).Some? then Got(TakenFrom(es).value, p + |Values.EntriesText(true, es)|) else No
    decreases |es|
  {
    hide EntryOf, EntriesAt, SkipWs, TakingOf, Stands, Terminated, Values.Text, Values.NamePart, Values.EntriesText;
    EntryTaken(es, t, p);
    Values.FirstEntry(true, es, t, p);
    var e := p + |Values.NamePart(true, es[0])| + |Values.Text(es[0].value)|;
    OneMoreEntry(t, p, []);
    NothingContinued(EntriesAt(t, p));
    var first := TakingOf(es[0]);
    if first.Refuses? {
      if EntryOf(t, p).Got? {
        NoWs(t, EntryOf(t, p).end);
      }
    } else {
      NoWs(t, e);
      var m := EntryOf(t, p).value;
      assert [] + m == m;
      if |es| == 1 {
        assert TakenFrom(es[1..]) == Some([]) && m + [] == m;
      } else {
        StandsFirst(t, e + 1, Values.EntriesText(true, es[1..]));
        StandsInside(t, e + 1, Values.EntriesText(true, es[1..]));
        NoWs(t, e + 1);
        EntriesTaken(es[1..], t, e + 1);
      }
    }
  }

  /** Of any JSON object, written out on its own, the agent takes the members it
      knows, and it refuses the object when one of them is not what it asks for. */
  lemma ParamsTaken(es: seq<Values.Entry>)
    ensures var text := Values.Text(Values.Container(true, es));
            Terminated(text + [0]) && ParamsIn(text + [0]) == if TakenFrom(es).Some? then Got(TakenFrom(es).value, |text|) else No
  {
    hide EntriesAt, SkipWs, Terminated, Stands, TakenFrom, Values.EntriesText;
    var text := Values.Text(Values.Container(true, es));
    ObjectIsClean(es);
    var t := text + [0];
    assert Stands(t, 0, text) by {
      StandsAlone(text);
    }
    assert t[0] == 0x7B && t[|text|] == 0;
    NoWs(t, 0);
    NoWs(t, |text|);
    NoneTaken();
    if es == [] {
      assert text == [0x7B, 0x7D] && t[1] == 0x7D;
      NoWs(t, 1);
    } else {
      assert text == [0x7B] + Values.EntriesText(true, es);
      StandsIn(t, 0, [0x7B], Values.EntriesText(true, es));
      StandsFirst(t, 1, Values.EntriesText(true, es));
      NoWs(t, 1);
      EntriesTaken(es, t, 1);
    }
  }

  lemma NoneTaken()
    ensures TakenFrom([]) == Some([])
  {
  }

  lemma StandsAlone(text: seq<byte>)
    ensures Stands(text + [0], 0, text)
  {
    assert (text + [0])[0..0 + |text|] == text;
  }

  /** And so `parse_generation_params` on such a text that is not too long. */
  lemma ParamsAnswered(es: seq<Values.Entry>)
    requires TakenFrom(es).Some? && Distinct(TakenFrom(es).value)
    ensures var t := Values.Text(Values.Container(true, es)) + [0];
            Terminated(t) && ParamsIn(t).Got? && Settle(ParamsIn(t).value) == Params(AsMap(TakenFrom(es).value))
  {
    hide TakenFrom, ParamsIn, Distinct, AsMap, Values.Text, Terminated;
    ParamsTaken(es);
  }

  // ---- No text holds a NUL ----

  lemma {:induction false} ValueIsClean(v: Values.Value)
    ensures Clean(Values.Text(v))
    decreases v, 1
  {
    hide NumberText, CharsText, Values.EntriesText, AllScalar;
    match v
    case String(characters) => CharsAreClean(characters);
    case Container(isObject, entries) =>
      if entries != [] {
        EntriesAreClean(isObject, entries);
      }
    case _ =>
  }

  lemma {:induction false} EntriesAreClean(isObject: bool, es: seq<Values.Entry>)
    requires es != []
    ensures Clean(Values.EntriesText(isObject, es))
    decreases es, 0
  {
    hide CharsText, Values.Text, AllScalar;
    CharsAreClean(es[0].name);
    ValueIsClean(es[0].value);
    if |es| > 1 {
      EntriesAreClean(isObject, es[1..]);
    }
  }

  lemma ObjectIsClean(es: seq<Values.Entry>)
    ensures Terminated(Values.Text(Values.Container(true, es)) + [0])
  {
    hide Values.Text;
    ValueIsClean(Values.Container(true, es));
  }
}
