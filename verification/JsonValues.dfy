/** JSON values as a tree, the text that writes them, and what the agent skips
    of it (guest/minimal-initrd/request.c). */
module JsonValues {
  import opened Bytes
  import opened Utf8
  import opened Json
  import opened JsonText

  type Characters = cps: seq<nat> | AllScalar(cps) witness []
  type Digits = s: seq<byte> | s != [] && forall i :: 0 <= i < |s| ==> 0x30 <= s[i] <= 0x39 witness [0x30]

  datatype Sign = NoSign | Plus | Minus
  datatype Fraction = NoFraction | Fraction(digits: Digits)
  datatype Exponent = NoExponent | Exponent(upper: bool, sign: Sign, digits: Digits)

  /** A value; the name of an entry counts in an object only. */
  datatype Value =
    | Null
    | Bool(b: bool)
    | Number(negative: bool, whole: nat, fraction: Fraction, exponent: Exponent)
    | String(characters: Characters)
    | Container(isObject: bool, entries: seq<Entry>)
  datatype Entry = Entry(name: Characters, value: Value)

  function FractionText(f: Fraction): seq<byte> {
    match f
    case NoFraction => []
    case Fraction(digits) => [0x2E] + digits
  }

  function ExponentText(e: Exponent): seq<byte> {
    match e
    case NoExponent => []
    case Exponent(upper, sign, digits) =>
      [if upper then 0x45 else 0x65] + SignText(sign) + digits
  }

  ghost function Text(v: Value): (s: seq<byte>)
    ensures s != [] && s[0] !in {0, 0x20, 0x09, 0x0A, 0x0D, 0x5D, 0x7D}
    decreases v
  {
    match v
    case Null => [0x6E, 0x75, 0x6C, 0x6C]
    case Bool(b) => if b then [0x74, 0x72, 0x75, 0x65] else [0x66, 0x61, 0x6C, 0x73, 0x65]
    case Number(negative, whole, fraction, exponent) =>
      (if negative then [0x2D] else []) + NumberText(whole) + FractionText(fraction) + ExponentText(exponent)
    case String(characters) => StringText(characters)
    case Container(isObject, entries) =>
      [if isObject then 0x7B else 0x5B] + if entries == [] then [CloserOf(isObject)] else EntriesText(isObject, entries)
  }

  function CloserOf(isObject: bool): byte {
    if isObject then 0x7D else 0x5D
  }

  ghost function NamePart(isObject: bool, e: Entry): seq<byte> {
    if isObject then StringText(e.name) + [0x3A] else []
  }

  /** The entries, with commas between them and the bracket that closes them. */
  ghost function EntriesText(isObject: bool, es: seq<Entry>): (s: seq<byte>)
    requires es != []
    ensures s != [] && s[0] !in {0, 0x20, 0x09, 0x0A, 0x0D, 0x5D, 0x7D}
    decreases es
  {
    var first := NamePart(isObject, es[0]) + Text(es[0].value);
    if |es| == 1 then first + [CloserOf(isObject)] else first + [0x2C] + EntriesText(isObject, es[1..])
  }

  // ---- Numbers ----

  lemma DigitsReadAt(t: seq<byte>, p: nat, digits: Digits)
    requires Terminated(t) && Stands(t, p, digits) && !(0x30 <= t[p + |digits|] <= 0x39)
    ensures 0x30 <= t[p] <= 0x39 && DigitsEnd(t, p) == p + |digits|
  {
    forall i | p <= i < p + |digits| ensures 0x30 <= t[i] <= 0x39 {
      assert t[p..p + |digits|][i - p] == t[i];
    }
    DigitsStand(t, p, p + |digits|);
  }

  lemma FractionReads(t: seq<byte>, p: nat, f: Fraction)
    requires Terminated(t) && Stands(t, p, FractionText(f))
    requires var c := t[p + |FractionText(f)|]; !(0x30 <= c <= 0x39) && c != 0x2E
    ensures FracPart(t, p) == To(p + |FractionText(f)|) && !(0x30 <= t[p] <= 0x39)
  {
    hide DigitsEnd;
    if f.Fraction? {
      StandsIn(t, p, [0x2E], f.digits);
      StandsFirst(t, p, [0x2E]);
      DigitsReadAt(t, p + 1, f.digits);
    }
  }

  function SignText(sign: Sign): seq<byte> {
    match sign
    case NoSign => []
    case Plus => [0x2B]
    case Minus => [0x2D]
  }

  lemma PowerReads(t: seq<byte>, p: nat, letter: byte, sign: Sign, digits: Digits)
    requires Terminated(t) && Stands(t, p, [letter] + (SignText(sign) + digits)) && (letter == 0x45 || letter == 0x65)
    requires !(0x30 <= t[p + 1 + |SignText(sign)| + |digits|] <= 0x39)
    ensures ExpPart(t, p) == To(p + 1 + |SignText(sign)| + |digits|) && t[p] == letter
  {
    hide DigitsEnd, Stands, Terminated;
    StandsIn(t, p, [letter], SignText(sign) + digits);
    StandsInside(t, p, [letter]);
    StandsFirst(t, p, [letter]);
    StandsIn(t, p + 1, SignText(sign), digits);
    if sign != NoSign {
      StandsFirst(t, p + 1, SignText(sign));
    }
    StandsInside(t, p + 1 + |SignText(sign)|, digits);
    DigitsReadAt(t, p + 1 + |SignText(sign)|, digits);
  }

  lemma ExponentReads(t: seq<byte>, p: nat, e: Exponent)
    requires Terminated(t) && Stands(t, p, ExponentText(e)) && Ends(t, p + |ExponentText(e)|)
    ensures ExpPart(t, p) == To(p + |ExponentText(e)|) && !(0x30 <= t[p] <= 0x39) && t[p] != 0x2E
  {
    hide DigitsEnd, Stands, Terminated, SomeDigits;
    if e.Exponent? {
      var letter := if e.upper then 0x45 else 0x65;
      assert ExponentText(e) == [letter] + (SignText(e.sign) + e.digits);
      PowerReads(t, p, letter, e.sign, e.digits);
    }
  }

  lemma WholeReads(t: seq<byte>, p: nat, n: nat)
    requires Terminated(t) && Stands(t, p, NumberText(n)) && !(0x30 <= t[p + |NumberText(n)|] <= 0x39)
    ensures IntPart(t, p) == To(p + |NumberText(n)|) && 0x30 <= t[p] <= 0x39
  {
    hide DigitsEnd, NumberText;
    StandsFirst(t, p, NumberText(n));
    DigitsReadAt(t, p, NumberText(n));
  }

  lemma NumberParts(negative: bool, whole: nat, f: Fraction, e: Exponent)
    ensures Text(Number(negative, whole, f, e)) == (if negative then [0x2D] else []) + (NumberText(whole) + (FractionText(f) + ExponentText(e)))
  {
    hide FractionText, ExponentText, NumberText;
  }

  /** A number, with its sign, fraction and exponent if any, is one number to its end. */
  lemma NumberIsRead(t: seq<byte>, p: nat, negative: bool, whole: nat, f: Fraction, e: Exponent)
    requires Terminated(t) && Stands(t, p, Text(Number(negative, whole, f, e))) && Ends(t, p + |Text(Number(negative, whole, f, e))|)
    ensures NumberAt(t, p) == To(p + |Text(Number(negative, whole, f, e))|) && (t[p] == 0x2D || 0x30 <= t[p] <= 0x39)
  {
    hide IntPart, FracPart, ExpPart, FractionText, ExponentText, NumberText, Stands, Terminated, Text;
    var sign: seq<byte> := if negative then [0x2D] else [];
    var whole', frac, exp := NumberText(whole), FractionText(f), ExponentText(e);
    NumberParts(negative, whole, f, e);
    StandsIn(t, p, sign, whole' + (frac + exp));
    StandsIn(t, p + |sign|, whole', frac + exp);
    StandsIn(t, p + |sign| + |whole'|, frac, exp);
    ExponentReads(t, p + |sign| + |whole'| + |frac|, e);
    FractionReads(t, p + |sign| + |whole'|, f);
    WholeReads(t, p + |sign|, whole);
    if negative {
      StandsFirst(t, p, sign);
    }
    EndsFinish(t, p + |Text(Number(negative, whole, f, e))|);
  }

  lemma EndsFinish(t: seq<byte>, p: nat)
    requires Ends(t, p)
    ensures Finished(t[p])
  {
  }

  // ---- Values ----

  lemma WordReads(t: seq<byte>, p: nat, v: Value)
    requires Terminated(t) && (v.Null? || v.Bool?) && Stands(t, p, Text(v)) && Ends(t, p + |Text(v)|)
    ensures ScalarAt(t, p) == To(p + |Text(v)|) && t[p] in {0x6E, 0x74, 0x66}
  {
    hide NumberAt, StringAt, Word, Stands;
    WordIs(t, p, TRUE);
    WordIs(t, p, FALSE);
    WordIs(t, p, NULL);
    StandsFirst(t, p, Text(v));
    if Stands(t, p, TRUE) {
      StandsFirst(t, p, TRUE);
    }
    if Stands(t, p, FALSE) {
      StandsFirst(t, p, FALSE);
    }
  }

  lemma NumberIsScalar(t: seq<byte>, p: nat, v: Value)
    requires Terminated(t) && v.Number? && Stands(t, p, Text(v)) && Ends(t, p + |Text(v)|)
    ensures ScalarAt(t, p) == To(p + |Text(v)|) && t[p] != 0x7B && t[p] != 0x5B
  {
    hide NumberAt, StringAt, Text, Word, Stands;
    WordIs(t, p, NULL);
    if Stands(t, p, NULL) {
      StandsFirst(t, p, NULL);
    }
    NumberIsRead(t, p, v.negative, v.whole, v.fraction, v.exponent);
  }

  lemma StringIsScalar(t: seq<byte>, p: nat, v: Value)
    requires Terminated(t) && v.String? && Stands(t, p, Text(v))
    ensures ScalarAt(t, p) == To(p + |Text(v)|) && t[p] == 0x22
  {
    hide NumberAt, StringAt, StringText;
    StandsFirst(t, p, Text(v));
    StringReads(t, p, v.characters);
  }

  /** Every value is one value to its end, wherever it stands. */
  lemma {:induction false} ValueReads(v: Value, t: seq<byte>, p: nat)
    requires Terminated(t) && Stands(t, p, Text(v)) && Ends(t, p + |Text(v)|)
    ensures ValueAt(t, p) == To(p + |Text(v)|)
    decreases v
  {
    hide ScalarAt, ContainerAt, Stands, Terminated, Text;
    StandsInside(t, p, Text(v));
    match v
    case Null => WordReads(t, p, v);
    case Bool(_) => WordReads(t, p, v);
    case Number(_, _, _, _) => NumberIsScalar(t, p, v);
    case String(_) => StringIsScalar(t, p, v);
    case Container(isObject, entries) => ContainerReads(isObject, entries, t, p);
  }

  lemma {:induction false} ContainerReads(isObject: bool, entries: seq<Entry>, t: seq<byte>, p: nat)
    requires Terminated(t) && Stands(t, p, Text(Container(isObject, entries)))
    ensures t[p] == (if isObject then 0x7B else 0x5B) && t[p] != 0 && ContainerAt(t, p, isObject) == To(p + |Text(Container(isObject, entries))|)
    decreases entries, 1
  {
    hide SkipWs, EntryAt, RestAt, ValueAt, Stands, Terminated, EntriesText;
    var open: seq<byte> := [if isObject then 0x7B else 0x5B];
    var rest := if entries == [] then [CloserOf(isObject)] else EntriesText(isObject, entries);
    assert Text(Container(isObject, entries)) == open + rest;
    StandsIn(t, p, open, rest);
    StandsInside(t, p, open);
    StandsInside(t, p + 1, rest);
    StandsFirst(t, p, open);
    StandsFirst(t, p + 1, rest);
    NoWs(t, p + 1);
    if entries != [] {
      EntriesRead(isObject, entries, t, p + 1);
    }
  }

  lemma EntriesParts(isObject: bool, es: seq<Entry>)
    requires es != []
    ensures var tail := if |es| == 1 then [CloserOf(isObject)] else [0x2C] + EntriesText(isObject, es[1..]);
            EntriesText(isObject, es) == NamePart(isObject, es[0]) + (Text(es[0].value) + tail)
  {
    hide Text, NamePart;
  }

  /** Where an entry's value starts and ends, and what is after it. */
  lemma FirstEntry(isObject: bool, es: seq<Entry>, t: seq<byte>, p: nat)
    requires Terminated(t) && es != [] && Stands(t, p, EntriesText(isObject, es))
    ensures var v := p + |NamePart(isObject, es[0])|;
            var e := v + |Text(es[0].value)|;
            && p < |t| && EntryAt(t, p, isObject) == To(v) && Stands(t, v, Text(es[0].value)) && Ends(t, e)
            && if |es| == 1 then t[e] == CloserOf(isObject) && e + 1 == p + |EntriesText(isObject, es)|
               else t[e] == 0x2C && Stands(t, e + 1, EntriesText(isObject, es[1..])) && p + |EntriesText(isObject, es)| == e + 1 + |EntriesText(isObject, es[1..])|
  {
    hide SkipWs, StringAt, Text, StringText, Stands, Terminated, EntriesText, KeyAt;
    var name, text := NamePart(isObject, es[0]), Text(es[0].value);
    var tail := if |es| == 1 then [CloserOf(isObject)] else [0x2C] + EntriesText(isObject, es[1..]);
    EntriesParts(isObject, es);
    StandsIn(t, p, name, text + tail);
    StandsIn(t, p + |name|, text, tail);
    var e := p + |name| + |text|;
    StandsInside(t, e, tail);
    StandsFirst(t, e, tail);
    if |es| > 1 {
      StandsIn(t, e, [0x2C], EntriesText(isObject, es[1..]));
    }
    StandsInside(t, p + |name|, text);
    StandsFirst(t, p + |name|, text);
    if isObject {
      NameIsRead(es[0].name, t, p);
    }
  }

  lemma NameIsRead(name: Characters, t: seq<byte>, p: nat)
    requires Terminated(t) && Stands(t, p, StringText(name) + [0x3A])
    requires t[p + |StringText(name)| + 1] !in {0x20, 0x09, 0x0A, 0x0D}
    ensures p < |t| && KeyAt(t, p) == To(p + |StringText(name)| + 1)
    ensures StringAt(t, p).Got? && StringAt(t, p).value == name && StringAt(t, p).end == p + |StringText(name)|
  {
    hide SkipWs, StringAt, StringText, Terminated;
    var colon := p + |StringText(name)|;
    StandsIn(t, p, StringText(name), [0x3A]);
    StandsFirst(t, colon, [0x3A]);
    StringReads(t, p, name);
    NoWs(t, colon);
    NoWs(t, colon + 1);
  }

  /** From an entry on: its value, and then the rest of its container. */
  lemma {:induction false} EntriesRead(isObject: bool, es: seq<Entry>, t: seq<byte>, p: nat)
    requires Terminated(t) && es != [] && Stands(t, p, EntriesText(isObject, es))
    ensures p < |t| && EntryAt(t, p, isObject).To?
    ensures var v := EntryAt(t, p, isObject).end;
            ValueAt(t, v).To? && RestAt(t, ValueAt(t, v).end, isObject) == To(p + |EntriesText(isObject, es)|)
    decreases es, 0
  {
    hide SkipWs, EntryAt, ValueAt, EntriesText, NamePart, Text, Stands, Terminated;
    FirstEntry(isObject, es, t, p);
    var v := p + |NamePart(isObject, es[0])|;
    var e := v + |Text(es[0].value)|;
    ValueReads(es[0].value, t, v);
    NoWs(t, e);
    if |es| > 1 {
      StandsInside(t, e + 1, EntriesText(isObject, es[1..]));
      StandsFirst(t, e + 1, EntriesText(isObject, es[1..]));
      NoWs(t, e + 1);
      EntriesRead(isObject, es[1..], t, e + 1);
    }
  }
}
