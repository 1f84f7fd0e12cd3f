/** How a request is laid out makes no difference: neither the order of its
    members nor the white space between its tokens nor how its names are
    escaped (guest/minimal-initrd/request.c). */
module RequestLayout {
  import opened Bytes
  import opened Utf8
  import opened Json
  import opened JsonText
  import opened JsonMoves
  import opened MemberNames
  import opened MemberValues
  import opened MemberMoves
  import opened Requests

  /** A member as it is written: its name and its value's own text, with white space around them. */
  datatype Slot = Slot(before: seq<byte>, key: seq<byte>, afterKey: seq<byte>, beforeValue: seq<byte>, value: seq<byte>, after: seq<byte>)

  /** A value's text as it is read by itself, with a delimiter after it. */
  function Alone(value: seq<byte>): seq<byte> {
    value + [Ch(' '), 0]
  }

  /** The text is one string, escapes and all, of a length that a name's buffer takes. */
  ghost predicate IsName(key: seq<byte>) {
    Terminated(Alone(key)) && var name := Fitted(StringAt(Alone(key), 0), KEY_CAP); name.Got? && name.end == |key|
  }

  ghost function NameOf(key: seq<byte>): seq<byte>
    requires IsName(key)
  {
    Fitted(StringAt(Alone(key), 0), KEY_CAP).value
  }

  /** Each stretch between the tokens is white space. */
  ghost predicate Tidy(s: Slot) {
    && AllWs(s.before) && AllWs(s.afterKey) && AllWs(s.beforeValue) && AllWs(s.after)
    && IsName(s.key) && s.value != [] && !IsWs(s.value[0])
  }

  function NameText(s: Slot): seq<byte> {
    s.key + s.afterKey + [Ch(':')] + s.beforeValue
  }

  function SlotText(s: Slot): seq<byte> {
    s.before + NameText(s) + s.value + s.after
  }

  ghost predicate AllTidy(ss: seq<Slot>) {
    forall i :: 0 <= i < |ss| ==> Tidy(ss[i])
  }

  /** The members one after the other, and the closing brace. */
  ghost function SlotsText(ss: seq<Slot>): seq<byte>
    requires AllTidy(ss) && ss != []
  {
    if |ss| == 1 then SlotText(ss[0]) + [Ch('}')]
    else SlotText(ss[0]) + [Ch(',')] + SlotsText(ss[1..])
  }

  /** What may follow a value inside an object. */
  predicate Delimits(c: byte) {
    IsWs(c) || c == Ch(',') || c == Ch('}')
  }

  /** The slot is member `m`: its value's text, read by itself, comes to that. */
  ghost predicate Means(s: Slot, m: Member)
    requires Tidy(s)
  {
    && m.id < |FORMS| && IndexIn(NameOf(s.key), MEMBER_NAMES) == m.id
    && Terminated(Alone(s.value)) && ValueOf(FORMS[m.id], Alone(s.value), 0) == Got(m.value, |s.value|)
  }

  ghost predicate AllMean(ss: seq<Slot>, ms: seq<Member>)
    requires AllTidy(ss)
  {
    |ss| == |ms| && forall i :: 0 <= i < |ss| ==> Means(ss[i], ms[i])
  }

  /** A value is read for what it is wherever it stands in a text. */
  lemma ValueReads(form: Form, t: seq<byte>, p: nat, value: seq<byte>)
    requires Terminated(t) && Terminated(Alone(value)) && Stands(t, p, value) && Delimits(t[p + |value|])
    requires ValueOf(form, Alone(value), 0).Got? && ValueOf(form, Alone(value), 0).end == |value|
    ensures ValueOf(form, t, p) == Got(ValueOf(form, Alone(value), 0).value, p + |value|)
  {
    hide ValueOf;
    AloneAgrees(t, p, value);
    ValueMoves(form, Alone(value), t, 0, p);
  }

  lemma AloneAgrees(t: seq<byte>, p: nat, value: seq<byte>)
    requires Stands(t, p, value)
    ensures Agrees(Alone(value), t, 0, |value|, p)
  {
    forall i | 0 <= i < |value| ensures t[i + p] == Alone(value)[i] {
      assert t[p..p + |value|][i] == value[i];
    }
  }

  /** The name of a slot is read as that name, and its value starts where it was put. */
  lemma NameReads(t: seq<byte>, p: nat, s: Slot)
    requires Terminated(t) && Tidy(s) && Stands(t, p, NameText(s)) && !IsWs(t[p + |NameText(s)|])
    ensures KeyAt(t, p) == To(p + |NameText(s)|) && Fitted(StringAt(t, p), KEY_CAP).Got?
    ensures Fitted(StringAt(t, p), KEY_CAP).value == NameOf(s.key)
  {
    hide StringAt, SkipWs, EncodeAll, Stands, Terminated, AllScalar;
    StandsIn(t, p, s.key + s.afterKey + [Ch(':')], s.beforeValue);
    StandsIn(t, p, s.key + s.afterKey, [Ch(':')]);
    StandsIn(t, p, s.key, s.afterKey);
    AloneAgrees(t, p, s.key);
    StringMoves(Alone(s.key), t, 0, |s.key|, p);
    var colon := p + |s.key| + |s.afterKey|;
    SkipsOver(t, p + |s.key|, s.afterKey);
    SkipsOver(t, colon + 1, s.beforeValue);
  }

  /** Where the parts of a slot stand. */
  lemma SlotParts(t: seq<byte>, p: nat, s: Slot)
    requires Tidy(s) && Stands(t, p, SlotText(s))
    ensures var name := p + |s.before|;
            var value := name + |NameText(s)|;
            var end := value + |s.value|;
            && Stands(t, p, s.before) && t[name] == Ch('"') && Stands(t, name, NameText(s))
            && t[value] == s.value[0] && Stands(t, value, s.value) && Stands(t, end, s.after)
            && end + |s.after| == p + |SlotText(s)| < |t| && (s.after != [] ==> IsWs(t[end]))
  {
    hide NameText, IsName;
    StandsIn(t, p, s.before + NameText(s) + s.value, s.after);
    StandsIn(t, p, s.before + NameText(s), s.value);
    StandsIn(t, p, s.before, NameText(s));
    var name := p + |s.before|;
    NameStarts(t, name, s);
    var value := name + |NameText(s)|;
    assert t[value] == t[value..value + |s.value|][0];
    var end := value + |s.value|;
    if s.after != [] {
      assert t[end] == t[end..end + |s.after|][0] == s.after[0];
    }
  }

  /** A slot is read as its member, up to the comma or brace that follows it. */
  lemma SlotReads(t: seq<byte>, p: nat, s: Slot, m: Member)
    requires Terminated(t) && Tidy(s) && Means(s, m) && Stands(t, p, SlotText(s))
    requires t[p + |SlotText(s)|] == Ch(',') || t[p + |SlotText(s)|] == Ch('}')
    ensures var r := MemberAt(t, SkipWs(t, p));
            r.Got? && r.value == m && SkipWs(t, r.end) == p + |SlotText(s)|
  {
    hide ValueOf, SkipWs, StringAt, KeyAt, Fitted, IndexIn, NameText, SlotText, Stands, MemberAt, NameOf, IsName;
    SlotParts(t, p, s);
    var name := p + |s.before|;
    var value := name + |NameText(s)|;
    SkipsOver(t, p, s.before);
    NameReads(t, name, s);
    MemberIs(t, name);
    assert Delimits(t[value + |s.value|]);
    ValueReads(FORMS[m.id], t, value, s.value);
    SkipsOver(t, value + |s.value|, s.after);
  }

  lemma NameStarts(t: seq<byte>, p: nat, s: Slot)
    requires Tidy(s) && Stands(t, p, NameText(s))
    ensures t[p] == Ch('"')
  {
    hide CharsAt, EncodeAll;
    assert Alone(s.key)[0] == Ch('"') && s.key != [];
    assert t[p] == t[p..p + |NameText(s)|][0] == NameText(s)[0] == s.key[0];
  }

  /** The first slot, what separates it from the others, and the others. */
  lemma FirstStands(t: seq<byte>, p: nat, ss: seq<Slot>)
    requires AllTidy(ss) && ss != [] && Stands(t, p, SlotsText(ss))
    ensures var q := p + |SlotText(ss[0])|;
            Stands(t, p, SlotText(ss[0])) &&
            if |ss| == 1 then t[q] == Ch('}') && p + |SlotsText(ss)| == q + 1
            else t[q] == Ch(',') && Stands(t, q + 1, SlotsText(ss[1..])) && p + |SlotsText(ss)| == q + 1 + |SlotsText(ss[1..])|
  {
    hide SlotText, Stands, Tidy;
    var first := SlotText(ss[0]);
    if |ss| == 1 {
      assert first + [Ch('}')] + [] == first + [Ch('}')];
      StandsApart(t, p, first, Ch('}'), []);
    } else {
      StandsApart(t, p, first, Ch(','), SlotsText(ss[1..]));
    }
  }

  lemma {:induction false} SlotsRead(t: seq<byte>, p: nat, ss: seq<Slot>, ms: seq<Member>)
    requires Terminated(t) && ss != [] && AllTidy(ss) && AllMean(ss, ms) && Stands(t, p, SlotsText(ss))
    ensures MembersAt(t, SkipWs(t, p)) == Got(ms, p + |SlotsText(ss)|)
    decreases |ss|
  {
    hide SlotText, SlotsText, MemberAt, MembersAt, MoreAt, SkipWs, Means, Stands, Tidy;
    FirstStands(t, p, ss);
    SlotReads(t, p, ss[0], ms[0]);
    var start := SkipWs(t, p);
    NothingContinued(MembersAt(t, start));
    OneMoreMember(t, start, []);
    assert [] + [ms[0]] == [ms[0]];
    RestIs(t, MemberAt(t, start).end, [ms[0]]);
    if |ss| == 1 {
      assert ms == [ms[0]];
    } else {
      SlotsRead(t, p + |SlotText(ss[0])| + 1, ss[1..], ms[1..]);
      assert ms == [ms[0]] + ms[1..];
    }
  }

  /** A request as it is written. */
  ghost function Written(lead: seq<byte>, ss: seq<Slot>, trail: seq<byte>): seq<byte>
    requires AllTidy(ss) && ss != []
  {
    lead + [Ch('{')] + SlotsText(ss) + trail
  }

  lemma CleanSlot(s: Slot, m: Member)
    requires Tidy(s) && Means(s, m)
    ensures 0 !in SlotText(s)
  {
    hide ValueOf, IndexIn, StringAt, Fitted, NameOf;
    assert forall i :: 0 <= i < |s.key| ==> Alone(s.key)[i] == s.key[i];
    assert forall i :: 0 <= i < |s.value| ==> Alone(s.value)[i] == s.value[i];
  }

  lemma {:induction false} CleanSlots(ss: seq<Slot>, ms: seq<Member>)
    requires ss != [] && AllTidy(ss) && AllMean(ss, ms)
    ensures 0 !in SlotsText(ss)
    decreases |ss|
  {
    hide SlotText, Means, Tidy;
    CleanSlot(ss[0], ms[0]);
    if |ss| > 1 {
      CleanSlots(ss[1..], ms[1..]);
    }
  }

  /** What is written out of members holds no NUL. */
  lemma WrittenIsClean(lead: seq<byte>, ss: seq<Slot>, trail: seq<byte>, ms: seq<Member>)
    requires ss != [] && AllTidy(ss) && AllMean(ss, ms) && AllWs(lead) && AllWs(trail)
    ensures 0 !in Written(lead, ss, trail)
  {
    hide SlotsText, AllMean, AllTidy;
    CleanSlots(ss, ms);
  }

  /** A request that is written out is read as its members. */
  lemma WrittenIsRead(lead: seq<byte>, ss: seq<Slot>, trail: seq<byte>, ms: seq<Member>)
    requires ss != [] && AllTidy(ss) && AllMean(ss, ms) && AllWs(lead) && AllWs(trail)
    ensures 0 !in Written(lead, ss, trail)
    ensures ObjectIn(AsCString(Written(lead, ss, trail))) == Got(ms, |Written(lead, ss, trail)|)
  {
    hide SlotsText, MembersAt, SkipWs, Terminated, AllMean;
    WrittenIsClean(lead, ss, trail, ms);
    var t := AsCString(Written(lead, ss, trail));
    var open := |lead|;
    assert Stands(t, 0, lead + [Ch('{')] + SlotsText(ss) + trail);
    StandsIn(t, 0, lead + [Ch('{')] + SlotsText(ss), trail);
    StandsIn(t, 0, lead + [Ch('{')], SlotsText(ss));
    StandsIn(t, 0, lead, [Ch('{')]);
    assert t[open] == Ch('{');
    SkipsOver(t, 0, lead);
    SlotsRead(t, open + 1, ss, ms);
    SkipsOver(t, open + 1 + |SlotsText(ss)|, trail);
  }

  /** Two requests with the same members come to the same, in whatever order
      and with whatever white space they are written. */
  lemma LayoutIsNothing(lead: seq<byte>, ss: seq<Slot>, trail: seq<byte>, ms: seq<Member>,
                        lead': seq<byte>, ss': seq<Slot>, trail': seq<byte>, ms': seq<Member>)
    requires multiset(ms) == multiset(ms')
    requires ss != [] && AllTidy(ss) && AllMean(ss, ms) && AllWs(lead) && AllWs(trail + [10])
    requires ss' != [] && AllTidy(ss') && AllMean(ss', ms') && AllWs(lead') && AllWs(trail' + [10])
    ensures Answer(Written(lead, ss, trail + [10])) == Answer(Written(lead', ss', trail' + [10]))
    ensures Answer(Written(lead, ss, trail + [10])) == Decide(ms)
  {
    hide ObjectIn, SlotsText, AllMean, Decide, AsCString;
    WrittenIsRead(lead, ss, trail + [10], ms);
    WrittenIsRead(lead', ss', trail' + [10], ms');
    var req, req' := Written(lead, ss, trail + [10]), Written(lead', ss', trail' + [10]);
    assert req[|req| - 1] == 10 && req'[|req'| - 1] == 10;
    OrderIsNothing(ms, ms');
  }
}
