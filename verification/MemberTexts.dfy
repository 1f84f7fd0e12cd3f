/** What each member's value is, said of the characters that write it
    (guest/minimal-initrd/request.c). */
module MemberTexts {
  import opened Bytes
  import opened Utf8
  import opened Json
  import opened JsonText
  import opened MountTargets
  import opened MemberValues
  import opened RunRequests

  // ---- Words ----

  const TRUE_TEXT: seq<byte> := [0x74, 0x72, 0x75, 0x65]
  const FALSE_TEXT: seq<byte> := [0x66, 0x61, 0x6C, 0x73, 0x65]
  const NULL_TEXT: seq<byte> := [0x6E, 0x75, 0x6C, 0x6C]

  /** The word true is a flag that is set, the word false one that is not, and
      no other text is a flag. A flag that must be set takes the first only. */
  lemma FlagReads(t: seq<byte>, p: nat)
    requires Terminated(t) && p < |t|
    ensures Stands(t, p, TRUE_TEXT) && Ends(t, p + 4) ==>
              ValueOf(Boolean, t, p) == Got(Flag(true), p + 4) && ValueOf(Always, t, p) == Got(Flag(true), p + 4)
    ensures Stands(t, p, FALSE_TEXT) && Ends(t, p + 5) ==> ValueOf(Boolean, t, p) == Got(Flag(false), p + 5) && ValueOf(Always, t, p).No?
    ensures !(Stands(t, p, TRUE_TEXT) && Ends(t, p + 4)) && !(Stands(t, p, FALSE_TEXT) && Ends(t, p + 5)) ==>
              ValueOf(Boolean, t, p).No? && ValueOf(Always, t, p).No?
  {
    hide Word, Finished, Ends;
    WordIs(t, p, TRUE_TEXT);
    WordIs(t, p, FALSE_TEXT);
    if Stands(t, p, TRUE_TEXT) {
      StandsFirst(t, p, TRUE_TEXT);
    }
    if Stands(t, p, FALSE_TEXT) {
      StandsFirst(t, p, FALSE_TEXT);
    }
  }

  /** The word null is no time, digits are a time after 1970 and digits after a
      minus sign one before, when 64 bits hold it with its sign. */
  lemma TimeReads(t: seq<byte>, p: nat, n: nat)
    requires Terminated(t) && p < |t|
    ensures Stands(t, p, NULL_TEXT) && Ends(t, p + 4) ==> ValueOf(Moment, t, p) == Got(Time(false, 0), p + 4)
    ensures Stands(t, p, NumberText(n)) && !(0x30 <= t[p + |NumberText(n)|] <= 0x39) ==>
              ValueOf(Moment, t, p) == if n < 0x8000_0000_0000_0000 then Got(Time(true, n), p + |NumberText(n)|) else No
    ensures Stands(t, p, [0x2D] + NumberText(n)) && !(0x30 <= t[p + 1 + |NumberText(n)|] <= 0x39) ==>
              ValueOf(Moment, t, p) == if n <= 0x8000_0000_0000_0000 then Got(Time(true, 0 - n), p + 1 + |NumberText(n)|) else No
  {
    hide Finished, Ends, U64At, NumberText;
    WordIs(t, p, NULL_TEXT);
    if Stands(t, p, NULL_TEXT) {
      StandsFirst(t, p, NULL_TEXT);
    }
    if Stands(t, p, NumberText(n)) && !(0x30 <= t[p + |NumberText(n)|] <= 0x39) {
      StandsFirst(t, p, NumberText(n));
      NumberReads(t, p, n);
    }
    if Stands(t, p, [0x2D] + NumberText(n)) && !(0x30 <= t[p + 1 + |NumberText(n)|] <= 0x39) {
      StandsIn(t, p, [0x2D], NumberText(n));
      StandsFirst(t, p, [0x2D]);
      NumberReads(t, p + 1, n);
    }
  }

  /** And no other text is a time. */
  lemma ReadIsTime(t: seq<byte>, p: nat)
    requires Terminated(t) && p < |t| && ValueOf(Moment, t, p).Got?
    ensures var r := ValueOf(Moment, t, p);
            && r.value.Time?
            && if !r.value.present then Stands(t, p, NULL_TEXT) && Ends(t, p + 4)
               else if r.value.seconds > 0 || t[p] != 0x2D then r.value.seconds >= 0 && Stands(t, p, NumberText(r.value.seconds))
               else Stands(t, p, [0x2D] + NumberText(0 - r.value.seconds))
  {
    hide Finished, Ends, U64At, NumberText;
    WordIs(t, p, NULL_TEXT);
    if !Word(t, p, NULL) {
      var q := if t[p] == 0x2D then p + 1 else p;
      ReadIsNumber(t, q);
      if t[p] == 0x2D {
        var s := NumberText(U64At(t, q).value);
        assert t[p..q + |s|] == [0x2D] + t[q..q + |s|];
      }
    }
  }

  // ---- Texts ----

  ghost function Characters(b: seq<byte>): (cps: seq<nat>)
    requires IsUtf8(b)
    ensures AllScalar(cps) && EncodeAll(cps) == b
  {
    var cps :| AllScalar(cps) && EncodeAll(cps) == b;
    cps
  }

  /** A text between quotes. */
  ghost function Quoted(b: seq<byte>): (s: seq<byte>)
    requires IsUtf8(b)
    ensures |s| >= 2 && s[0] == 0x22
  {
    StringText(Characters(b))
  }

  lemma QuotedReads(t: seq<byte>, p: nat, b: seq<byte>)
    requires Terminated(t) && IsUtf8(b) && Stands(t, p, Quoted(b))
    ensures StringAt(t, p).Got? && StringAt(t, p).end == p + |Quoted(b)| && EncodeAll(StringAt(t, p).value) == b
    ensures BytesAt(t, p) == Got(b, p + |Quoted(b)|)
  {
    hide StringText, StringAt, EncodeAll, AllScalar, IsUtf8;
    StringReads(t, p, Characters(b));
  }

  /** The characters of an ASCII word. */
  function WordBytes(s: string): (b: seq<byte>)
    requires forall i :: 0 <= i < |s| ==> 0 < s[i] as int < 128
    ensures Says(b, s)
  {
    seq(|s|, i requires 0 <= i < |s| => s[i] as int)
  }

  lemma {:induction false} AsciiIsUtf8(b: seq<byte>)
    requires forall i :: 0 <= i < |b| ==> 0 < b[i] < 128
    ensures AllScalar(b) && EncodeAll(b) == b && IsUtf8(b)
    decreases |b|
  {
    if b != [] {
      AsciiIsUtf8(b[..|b| - 1]);
      assert b == b[..|b| - 1] + [b[|b| - 1]];
    }
  }

  // ---- Lists ----

  /** The items one after the other, and the bracket that closes them. */
  function Separated(texts: seq<seq<byte>>, close: byte): (s: seq<byte>)
    requires texts != []
    ensures |s| > |texts[0]| && s[..|texts[0]|] == texts[0]
  {
    if |texts| == 1 then texts[0] + [close] else texts[0] + [0x2C] + Separated(texts[1..], close)
  }

  /** The text is read as the item wherever it stands, and starts like one. */
  ghost predicate IsItem(k: Shape, text: seq<byte>, x: Item) {
    && text != [] && text[0] == (if k.Objects? then 0x7B else 0x22)
    && forall t, p: nat :: Terminated(t) && Stands(t, p, text) ==> ItemAt(k, t, p) == Got(x, p + |text|)
  }

  ghost predicate AreItems(k: Shape, texts: seq<seq<byte>>, xs: seq<Item>) {
    |texts| == |xs| && forall i :: 0 <= i < |texts| ==> IsItem(k, texts[i], xs[i])
  }

  lemma ItemReads(k: Shape, t: seq<byte>, p: nat, text: seq<byte>, x: Item)
    requires Terminated(t) && Stands(t, p, text) && IsItem(k, text, x)
    ensures t[p] == (if k.Objects? then 0x7B else 0x22) && ItemAt(k, t, p) == Got(x, p + |text|)
  {
    hide ItemAt;
    StandsFirst(t, p, text);
  }

  ghost function CloseOf(k: Shape): byte {
    if k.Fields? then 0x7D else 0x5D
  }

  lemma FirstStands(t: seq<byte>, p: nat, texts: seq<seq<byte>>, close: byte)
    requires texts != [] && Stands(t, p, Separated(texts, close))
    ensures var e := p + |texts[0]|;
            && e < |t| && Stands(t, p, texts[0])
            && if |texts| == 1 then t[e] == close && p + |Separated(texts, close)| == e + 1
               else t[e] == 0x2C && e + 1 < |t| && Stands(t, e + 1, Separated(texts[1..], close))
                    && p + |Separated(texts, close)| == e + 1 + |Separated(texts[1..], close)|
  {
    var first, e := texts[0], p + |texts[0]|;
    if |texts| == 1 {
      StandsIn(t, p, first, [close]);
      StandsFirst(t, e, [close]);
    } else {
      StandsApart(t, p, first, 0x2C, Separated(texts[1..], close));
    }
  }

  lemma {:induction false} ItemsRead(k: Shape, t: seq<byte>, p: nat, texts: seq<seq<byte>>, xs: seq<Item>)
    requires Terminated(t) && texts != [] && AreItems(k, texts, xs) && Stands(t, p, Separated(texts, CloseOf(k)))
    ensures p < |t| && ItemsAt(k, t, p) == Got(xs, p + |Separated(texts, CloseOf(k))|)
    ensures t[p] == if k.Objects? then 0x7B else 0x22
    decreases |texts|
  {
    hide ItemAt, ItemsAt, IsItem, SkipWs, Stands, Terminated, Separated;
    var e := p + |texts[0]|;
    FirstStands(t, p, texts, CloseOf(k));
    ItemsStep(k, t, p);
    ItemReads(k, t, p, texts[0], xs[0]);
    NoWs(t, e);
    if |texts| == 1 {
      assert xs == [xs[0]];
    } else {
      ItemsRead(k, t, e + 1, texts[1..], xs[1..]);
      NoWs(t, e + 1);
      assert xs == [xs[0]] + xs[1..];
    }
  }

  /** A list as it is written. */
  ghost function ListText(k: Shape, texts: seq<seq<byte>>): (s: seq<byte>)
    ensures |s| >= 2 && s[0] == if k.Fields? then 0x7B else 0x5B
  {
    var open := if k.Fields? then 0x7B else 0x5B;
    if texts == [] then [open, CloseOf(k)] else [open] + Separated(texts, CloseOf(k))
  }

  lemma ListReads(k: Shape, t: seq<byte>, p: nat, texts: seq<seq<byte>>, xs: seq<Item>)
    requires Terminated(t) && AreItems(k, texts, xs) && Stands(t, p, ListText(k, texts))
    ensures ListAt(k, t, p) == Got(xs, p + |ListText(k, texts)|)
  {
    hide ItemsAt, IsItem, SkipWs, Separated;
    StandsFirst(t, p, ListText(k, texts));
    if texts == [] {
      WordStands(t, p, ListText(k, texts)[0], CloseOf(k));
      NoWs(t, p + 1);
    } else {
      var rest := Separated(texts, CloseOf(k));
      StandsIn(t, p, [ListText(k, texts)[0]], rest);
      ItemsRead(k, t, p + 1, texts, xs);
      NoWs(t, p + 1);
    }
  }

  lemma QuotedIsItem(b: seq<byte>)
    requires IsUtf8(b)
    ensures IsItem(Texts, Quoted(b), Str(b))
  {
    hide Quoted, IsUtf8, BytesAt;
    forall t, p: nat | Terminated(t) && Stands(t, p, Quoted(b)) ensures ItemAt(Texts, t, p) == Got(Str(b), p + |Quoted(b)|) {
      QuotedReads(t, p, b);
    }
  }

  /** A name, a colon and a text. */
  ghost function FieldText(name: seq<byte>, text: seq<byte>): (s: seq<byte>)
    requires IsUtf8(name) && IsUtf8(text)
    ensures s != [] && s[0] == 0x22
  {
    Quoted(name) + [0x3A] + Quoted(text)
  }

  lemma FieldReads(t: seq<byte>, p: nat, name: seq<byte>, text: seq<byte>)
    requires Terminated(t) && IsUtf8(name) && IsUtf8(text) && Stands(t, p, FieldText(name, text))
    ensures p < |t| && ItemAt(Fields, t, p) == Got(Field(name, text), p + |FieldText(name, text)|)
  {
    hide Quoted, IsUtf8, BytesAt, StringAt, SkipWs, Stands, Terminated, ListAt, EncodeAll, AllScalar;
    StandsInside(t, p, FieldText(name, text));
    StandsApart(t, p, Quoted(name), 0x3A, Quoted(text));
    var colon := p + |Quoted(name)|;
    StandsInside(t, colon + 1, Quoted(text));
    QuotedReads(t, p, name);
    NoWs(t, colon);
    StandsFirst(t, colon + 1, Quoted(text));
    NoWs(t, colon + 1);
    QuotedReads(t, colon + 1, text);
  }

  lemma FieldIsItem(name: seq<byte>, text: seq<byte>)
    requires IsUtf8(name) && IsUtf8(text)
    ensures IsItem(Fields, FieldText(name, text), Field(name, text))
  {
    hide FieldText, IsUtf8, ItemAt;
    var s := FieldText(name, text);
    forall t, p: nat | Terminated(t) && Stands(t, p, s) ensures ItemAt(Fields, t, p) == Got(Field(name, text), p + |s|) {
      FieldReads(t, p, name, text);
    }
  }

  lemma ObjectIsItem(texts: seq<seq<byte>>, fs: seq<Item>)
    requires AreItems(Fields, texts, fs)
    ensures IsItem(Objects, ListText(Fields, texts), Obj(fs))
  {
    hide IsItem, ListAt;
    var s := ListText(Fields, texts);
    forall t, p: nat | Terminated(t) && Stands(t, p, s) ensures ItemAt(Objects, t, p) == Got(Obj(fs), p + |s|) {
      ListReads(Fields, t, p, texts, fs);
    }
    OneItem(Objects, s, Obj(fs));
  }

  lemma OneItem(k: Shape, text: seq<byte>, x: Item)
    requires text != [] && text[0] == (if k.Objects? then 0x7B else 0x22)
    requires forall t, p: nat :: Terminated(t) && Stands(t, p, text) ==> ItemAt(k, t, p) == Got(x, p + |text|)
    ensures IsItem(k, text, x)
  {
  }

  // ---- Values ----

  ghost function QuotedAll(ss: seq<seq<byte>>): (texts: seq<seq<byte>>)
    requires AllUtf8(ss)
    ensures |texts| == |ss|
  {
    seq(|ss|, i requires 0 <= i < |ss| => Quoted(ss[i]))
  }

  ghost function TargetName(): (b: seq<byte>)
    ensures IsUtf8(b) && Says(b, "target")
  {
    AsciiIsUtf8(WordBytes("target"));
    WordBytes("target")
  }

  ghost function KeyName(kind: Kind): (b: seq<byte>)
    ensures IsUtf8(b) && Says(b, if kind == Cache then "key" else "source")
  {
    var name := if kind == Cache then "key" else "source";
    AsciiIsUtf8(WordBytes(name));
    WordBytes(name)
  }

  ghost function MountFields(kind: Kind, m: MountText): seq<Item> {
    [Field(TargetName(), m.target), Field(KeyName(kind), m.other)]
  }

  /** A mount as an object of its two fields. */
  ghost function MountJson(kind: Kind, m: MountText): (s: seq<byte>)
    requires IsUtf8(m.target) && IsUtf8(m.other)
  {
    ListText(Fields, [FieldText(TargetName(), m.target), FieldText(KeyName(kind), m.other)])
  }

  ghost function MountJsons(kind: Kind, ms: seq<MountText>): (texts: seq<seq<byte>>)
    requires Spellable(Mounts(ms))
    ensures |texts| == |ms|
  {
    seq(|ms|, i requires 0 <= i < |ms| => MountJson(kind, ms[i]))
  }

  /** A value as it is written in a request. */
  ghost function ValueText(form: Form, v: Value): (s: seq<byte>)
    requires Spellable(v)
    ensures s != [] && s[0] !in {0, 0x20, 0x09, 0x0A, 0x0D}
  {
    match v
    case Text(text) => Quoted(text)
    case Number(n) => NumberText(n)
    case Flag(b) => if b then TRUE_TEXT else FALSE_TEXT
    case Time(present, seconds) =>
      if !present then NULL_TEXT else if seconds < 0 then [0x2D] + NumberText(0 - seconds) else NumberText(seconds)
    case Strings(ss) => ListText(Texts, QuotedAll(ss))
    case Mounts(ms) => ListText(Objects, MountJsons(if form.MountList? then form.kind else Cache, ms))
  }

  lemma StringsRead(form: Form, t: seq<byte>, p: nat, ss: seq<seq<byte>>)
    requires Terminated(t) && AllUtf8(ss) && Stands(t, p, ListText(Texts, QuotedAll(ss))) && (form.Argv? || form.Env?)
    requires TextsFit(form, ss) && (form.Argv? && ss != [] ==> ss[0] != [])
    ensures ValueOf(form, t, p) == Got(Strings(ss), p + |ListText(Texts, QuotedAll(ss))|)
  {
    hide ListText, ListAt, TextsFit, IsItem, IsUtf8;
    var xs := seq(|ss|, i requires 0 <= i < |ss| => Str(ss[i]));
    forall i | 0 <= i < |ss| ensures IsItem(Texts, QuotedAll(ss)[i], xs[i]) {
      QuotedIsItem(ss[i]);
    }
    ListReads(Texts, t, p, QuotedAll(ss), xs);
    assert TextsOf(xs) == ss;
  }

  lemma MountIsItem(kind: Kind, m: MountText)
    requires IsUtf8(m.target) && IsUtf8(m.other)
    ensures IsItem(Objects, MountJson(kind, m), Obj(MountFields(kind, m)))
  {
    hide IsItem, IsUtf8, TargetName, KeyName, FieldText, ListText;
    var texts, fs := [FieldText(TargetName(), m.target), FieldText(KeyName(kind), m.other)], MountFields(kind, m);
    FieldIsItem(TargetName(), m.target);
    FieldIsItem(KeyName(kind), m.other);
    assert AreItems(Fields, texts, fs);
    ObjectIsItem(texts, fs);
  }

  lemma FieldsAreMount(kind: Kind, m: MountText)
    requires TargetOk(kind, m.target) && OtherOk(kind, m.other)
    ensures MountOf(kind, Obj(MountFields(kind, m))) == Option.Some(m)
  {
    hide TargetOk, OtherOk, Says, TakeAll, Made, TargetName, KeyName;
    var fs := MountFields(kind, m);
    TakesTwo(kind, fs[0], fs[1]);
    assert fs == [fs[0], fs[1]];
  }

  lemma MountsRead(kind: Kind, t: seq<byte>, p: nat, ms: seq<MountText>)
    requires Terminated(t) && Spellable(Mounts(ms)) && MountsFormed(kind, ms) && Stands(t, p, ListText(Objects, MountJsons(kind, ms)))
    ensures ValueOf(MountList(kind), t, p) == Got(Mounts(ms), p + |ListText(Objects, MountJsons(kind, ms))|)
  {
    hide ListText, ListAt, IsItem, IsUtf8, MountJson, TargetOk, OtherOk, MountsOf, MountOf;
    var texts := MountJsons(kind, ms);
    var xs := seq(|ms|, i requires 0 <= i < |ms| => Obj(MountFields(kind, ms[i])));
    forall i | 0 <= i < |ms| ensures IsItem(Objects, texts[i], xs[i]) && MountOf(kind, xs[i]) == Option.Some(ms[i]) {
      MountIsItem(kind, ms[i]);
      FieldsAreMount(kind, ms[i]);
    }
    ListReads(Objects, t, p, texts, xs);
    FormedIsRead(kind, xs, ms);
  }

  lemma TextReads(form: Form, t: seq<byte>, p: nat, text: seq<byte>)
    requires Terminated(t) && IsUtf8(text) && Stands(t, p, Quoted(text))
    requires (form.AnyText? || form.SomeText? || form.RootedText? || form.OneOf?) && |text| < form.cap && TextOk(form, text)
    ensures ValueOf(form, t, p) == Got(Text(text), p + |Quoted(text)|)
  {
    hide StringAt, EncodeAll, Quoted, IsUtf8, TextOk, Stands;
    QuotedReads(t, p, text);
  }

  /** Every value of every form is read as itself from the text that writes it. */
  lemma ValueTextReads(form: Form, v: Value, t: seq<byte>, p: nat)
    requires Terminated(t) && Formed(form, v) && Stands(t, p, ValueText(form, v)) && Ends(t, p + |ValueText(form, v)|)
    requires form.Numeric? ==> form.most <= 0xFFFF_FFFF_FFFF_FFFF
    ensures ValueOf(form, t, p) == Got(v, p + |ValueText(form, v)|)
  {
    hide ValueOf, Quoted, NumberText, ListText, QuotedAll, MountJsons, IsUtf8, TextOk, TextsFit, MountsFormed, Stands;
    match form
    case Numeric(least, most) => NumberValueReads(least, most, t, p, v.number);
    case Boolean => FlagReads(t, p);
    case Always => FlagReads(t, p);
    case Moment =>
      StandsInside(t, p, ValueText(form, v));
      TimeReads(t, p, if v.seconds < 0 then 0 - v.seconds else v.seconds);
    case Argv => StringsRead(form, t, p, v.strings);
    case Env => StringsRead(form, t, p, v.strings);
    case MountList(kind) => MountsRead(kind, t, p, v.mounts);
    case _ => TextReads(form, t, p, v.text);
  }

  lemma NumberValueReads(least: nat, most: nat, t: seq<byte>, p: nat, n: nat)
    requires Terminated(t) && Stands(t, p, NumberText(n)) && Ends(t, p + |NumberText(n)|) && least <= n <= most && n <= 0xFFFF_FFFF_FFFF_FFFF
    ensures ValueOf(Numeric(least, most), t, p) == Got(Number(n), p + |NumberText(n)|)
  {
    hide U64At, NumberText, Stands;
    NumberReads(t, p, n);
  }
}
