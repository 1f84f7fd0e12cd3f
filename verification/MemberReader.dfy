/** The readers of the request members (guest/minimal-initrd/request.c). */
module MemberReader {
  import opened Bytes
  import opened Utf8
  import opened Json
  import opened PathText
  import opened TargetLists
  import opened MountTargets
  import opened MemberValues
  import Archive

  /** Some items are read; the rest start at `p`. */
  ghost function Prefixed(xs: seq<Item>, rest: At<seq<Item>>): At<seq<Item>> {
    match rest
    case No => No
    case Got(more, end) => Got(xs + more, end)
  }

  lemma NonePrefixed(rest: At<seq<Item>>)
    ensures Prefixed([], rest) == rest
  {
    if rest.Got? {
      assert [] + rest.value == rest.value;
    }
  }

  lemma OneMoreItem(k: Shape, t: seq<byte>, p: nat, xs: seq<Item>)
    requires Terminated(t) && p < |t|
    ensures ItemAt(k, t, p).No? ==> Prefixed(xs, ItemsAt(k, t, p)).No?
    ensures ItemAt(k, t, p).Got? ==>
              var x, q := ItemAt(k, t, p).value, SkipWs(t, ItemAt(k, t, p).end);
              Prefixed(xs, ItemsAt(k, t, p)) ==
              if t[q] == Shut(k) then Got(xs + [x], q + 1)
              else if t[q] != Ch(',') then No
              else Prefixed(xs + [x], ItemsAt(k, t, SkipWs(t, q + 1)))
  {
    hide ItemAt, ItemsAt, SkipWs;
    ItemsStep(k, t, p);
    if ItemAt(k, t, p).Got? {
      var x, q := ItemAt(k, t, p).value, SkipWs(t, ItemAt(k, t, p).end);
      if t[q] == Ch(',') {
        var rest := ItemsAt(k, t, SkipWs(t, q + 1));
        if rest.Got? {
          assert xs + ([x] + rest.value) == xs + [x] + rest.value;
        }
      }
    }
  }

  /** What follows the items read so far starts with the next one. */
  lemma NextIsFirst(k: Shape, t: seq<byte>, p: nat, xs: seq<Item>)
    requires Terminated(t) && p < |t| && Prefixed(xs, ItemsAt(k, t, p)).Got?
    ensures ItemAt(k, t, p).Got? && xs + [ItemAt(k, t, p).value] <= Prefixed(xs, ItemsAt(k, t, p)).value
  {
    hide ItemAt, ItemsAt, SkipWs;
    ItemsStep(k, t, p);
  }

  // ---- Strings: the arguments and the environment ----

  lemma {:induction false} StorageGrows(a: seq<seq<byte>>, b: seq<seq<byte>>)
    ensures Storage(a) <= Storage(a + b)
    decreases |b|
  {
    if b == [] {
      assert a + b == a;
    } else {
      StorageGrows(a, b[..|b| - 1]);
      assert (a + b)[..|a + b| - 1] == a + b[..|b| - 1];
    }
  }

  /** Strings that do not fit do not fit with more after them. */
  lemma FitsInPart(form: Form, xs: seq<Item>, all: seq<Item>)
    requires xs <= all && TextsFit(form, TextsOf(all))
    ensures TextsFit(form, TextsOf(xs))
  {
    hide Storage;
    var a, b := TextsOf(xs), TextsOf(all[|xs|..]);
    assert TextsOf(all) == a + b;
    StorageGrows(a, b);
    forall i | 0 <= i < |a| ensures a[i] == TextsOf(all)[i] {
    }
  }

  lemma TextsDoomed(form: Form, t: seq<byte>, p: nat, xs: seq<Item>)
    requires Terminated(t) && p < |t| && (ItemAt(Texts, t, p).Got? ==> !TextsFit(form, TextsOf(xs + [ItemAt(Texts, t, p).value])))
    ensures StringsValue(form, Prefixed(xs, ItemsAt(Texts, t, p))).No?
  {
    hide ItemAt, ItemsAt, TextsFit, TextsOf;
    var r := Prefixed(xs, ItemsAt(Texts, t, p));
    if r.Got? {
      NextIsFirst(Texts, t, p, xs);
      if TextsFit(form, TextsOf(r.value)) {
        FitsInPart(form, xs + [ItemAt(Texts, t, p).value], r.value);
      }
    }
  }

  lemma OneMoreText(xs: seq<Item>, text: seq<byte>)
    ensures TextsOf(xs + [Str(text)]) == TextsOf(xs) + [text]
    ensures Storage(TextsOf(xs + [Str(text)])) == Storage(TextsOf(xs)) + |text| + 1
  {
    var ss := TextsOf(xs);
    assert TextsOf(xs + [Str(text)]) == ss + [text];
    assert (ss + [text])[..|ss|] == ss;
  }

  /** What the next string may be: fewer bytes than the buffer has left. */
  lemma NextText(t: seq<byte>, p: nat, cap: nat)
    requires Terminated(t) && p < |t|
    ensures TextAt(t, p, cap).Got? ==> ItemAt(Texts, t, p) == Got(Str(TextAt(t, p, cap).value), TextAt(t, p, cap).end) && |TextAt(t, p, cap).value| < cap
    ensures TextAt(t, p, cap).No? && ItemAt(Texts, t, p).Got? ==> ItemAt(Texts, t, p).value.Str? && |ItemAt(Texts, t, p).value.text| >= cap
  {
    hide StringAt, EncodeAll;
  }

  /** `parse_exec_argv_value` and `parse_exec_env_value`: one string after the
      other, for as long as they fit. */
  method ReadStrings(form: Form, t: seq<byte>, start: nat) returns (r: At<Value>)
    requires Terminated(t) && start < |t| && (form.Argv? || form.Env?)
    ensures r == StringsValue(form, ListAt(Texts, t, start))
  {
    hide ItemAt, ItemsAt, SkipWs, TextAt, Storage, TextsOf;
    if t[start] != Ch('[') {
      return No;
    }
    var p := PassWs(t, start + 1);
    NoTexts();
    if t[p] == Ch(']') {
      return Got(Strings([]), p + 1);
    }
    var ss, storage := [], 0;
    ghost var xs: seq<Item> := [];
    NonePrefixed(ItemsAt(Texts, t, p));
    while true
      invariant start < p < |t| && ss == TextsOf(xs) && TextsFit(form, ss) && storage == Storage(ss)
      invariant ListAt(Texts, t, start) == Prefixed(xs, ItemsAt(Texts, t, p))
      decreases |t| - p
    {
      var next := ReadNextString(form, t, p, ss, storage, xs);
      if next.No? {
        TextsDoomed(form, t, p, xs);
        return No;
      }
      OneMoreItem(Texts, t, p, xs);
      OneMoreText(xs, next.value);
      ss, storage, xs := ss + [next.value], storage + |next.value| + 1, xs + [Str(next.value)];
      p := PassWs(t, next.end);
      if t[p] == Ch(']') {
        return if form.Argv? && ss[0] == [] then No else Got(Strings(ss), p + 1);
      }
      if t[p] != Ch(',') {
        return No;
      }
      p := PassWs(t, p + 1);
    }
  }

  lemma NoTexts()
    ensures TextsOf([]) == [] && Storage([]) == 0
  {
  }

  /** The next string of the list, when the arrays have room for it. */
  method ReadNextString(form: Form, t: seq<byte>, p: nat, ss: seq<seq<byte>>, storage: nat, ghost xs: seq<Item>) returns (r: At<seq<byte>>)
    requires Terminated(t) && p < |t| && (form.Argv? || form.Env?)
    requires ss == TextsOf(xs) && TextsFit(form, ss) && storage == Storage(ss)
    ensures r.Got? ==> ItemAt(Texts, t, p) == Got(Str(r.value), r.end) && TextsFit(form, ss + [r.value])
    ensures r.No? && ItemAt(Texts, t, p).Got? ==> !TextsFit(form, TextsOf(xs + [ItemAt(Texts, t, p).value]))
  {
    hide ItemAt, StringAt, Fitted, Storage, TextsOf;
    var room := if form.Argv? then MAX_ARG_STORAGE - storage else MAX_ENV_LEN;
    NextText(t, p, room);
    ghost var x := ItemAt(Texts, t, p);
    if x.Got? && x.value.Str? {
      OneMoreText(xs, x.value.text);
      assert (ss + [x.value.text])[|ss|] == x.value.text;
    }
    TextIsStr(t, p);
    if |ss| >= (if form.Argv? then MAX_ARGC else MAX_ENVC) || room <= 0 {
      return No;
    }
    r := ParseString(t, p, room);
  }

  lemma TextIsStr(t: seq<byte>, p: nat)
    requires Terminated(t) && p < |t|
    ensures ItemAt(Texts, t, p).Got? ==> ItemAt(Texts, t, p).value.Str?
  {
  }

  // ---- Cache mounts and context binds ----

  lemma {:induction false} TakenInPart(kind: Kind, fs: seq<Item>, all: seq<Item>)
    requires fs <= all && TakeAll(kind, fs).None?
    ensures TakeAll(kind, all).None?
    decreases |all|
  {
    hide Take;
    if |fs| < |all| {
      TakenInPart(kind, fs, all[..|all| - 1]);
    } else {
      assert fs == all;
    }
  }

  lemma OneMoreTaken(kind: Kind, fs: seq<Item>, f: Item)
    ensures TakeAll(kind, fs + [f]) == match TakeAll(kind, fs) case None => None case Some(got) => Take(kind, got, f)
  {
    hide Take;
    assert (fs + [f])[..|fs|] == fs;
  }

  lemma FieldDoomed(kind: Kind, t: seq<byte>, p: nat, fs: seq<Item>, got: Parts)
    requires Terminated(t) && p < |t| && TakeAll(kind, fs) == Some(got)
    requires ItemAt(Fields, t, p).Got? ==> Take(kind, got, ItemAt(Fields, t, p).value).None?
    ensures MountAt(kind, InObject(Prefixed(fs, ItemsAt(Fields, t, p)))).No?
  {
    hide ItemAt, ItemsAt, Take, TakeAll;
    var r := Prefixed(fs, ItemsAt(Fields, t, p));
    if r.Got? {
      NextIsFirst(Fields, t, p, fs);
      OneMoreTaken(kind, fs, ItemAt(Fields, t, p).value);
      TakenInPart(kind, fs + [ItemAt(Fields, t, p).value], r.value);
    }
  }

  ghost function InObject(r: At<seq<Item>>): At<Item> {
    match r
    case No => No
    case Got(fs, e) => Got(Obj(fs), e)
  }

  lemma ObjectIs(t: seq<byte>, p: nat)
    requires Terminated(t) && p < |t|
    ensures ItemAt(Objects, t, p) == InObject(ListAt(Fields, t, p))
  {
    hide ListAt;
  }

  /** The mount an object describes, where there is one. */
  ghost function MountAt(kind: Kind, r: At<Item>): At<MountText> {
    if r.No? || MountOf(kind, r.value).None? then No else Got(MountOf(kind, r.value).value, r.end)
  }

  /** `valid_build_cache_key` and `valid_build_context_bind_source`. */
  method AcceptOther(kind: Kind, text: seq<byte>) returns (ok: bool)
    ensures ok <==> OtherOk(kind, text)
  {
    hide Archive.ArchivePath;
    if kind == Bind {
      ok := Archive.ValidArchivePath(AsText(text));
      return ok && text != [];
    }
    if |text| != CACHE_KEY_LEN {
      return false;
    }
    for i := 0 to |text|
      invariant forall j :: 0 <= j < i ==> IsLowerHex(text[j])
    {
      var c := text[i];
      if !((c >= Ch('0') && c <= Ch('9')) || (c >= Ch('a') && c <= Ch('f'))) {
        return false;
      }
    }
    return true;
  }

  /** What a field may hold is shorter than its buffer. */
  lemma FieldShape(t: seq<byte>, p: nat)
    requires Terminated(t) && p < |t|
    ensures KeyAt(t, p).Bad? ==> ItemAt(Fields, t, p).No?
    ensures KeyAt(t, p).To? ==>
              && BytesAt(t, p).Got? && var text := BytesAt(t, KeyAt(t, p).end);
              if text.No? then ItemAt(Fields, t, p).No?
              else ItemAt(Fields, t, p) == Got(Field(BytesAt(t, p).value, text.value), text.end)
  {
    hide StringAt, EncodeAll;
  }

  lemma FittedIs(t: seq<byte>, p: nat, cap: nat)
    requires Terminated(t) && p < |t|
    ensures TextAt(t, p, cap) == if BytesAt(t, p).Got? && |BytesAt(t, p).value| < cap then BytesAt(t, p) else No
  {
    hide StringAt, EncodeAll;
  }

  lemma TargetsAreShort(kind: Kind, text: seq<byte>)
    ensures TargetOk(kind, text) ==> |text| < PATH_CAP
    ensures OtherOk(kind, text) ==> |text| < OtherCap(kind)
  {
    hide Overlaps;
  }

  /** The field that stands at `p`, taken into what was read of its object before. */
  ghost function TakenAt(kind: Kind, t: seq<byte>, p: nat, got: Parts): At<Parts>
    requires Terminated(t) && p < |t|
  {
    var f := ItemAt(Fields, t, p);
    if f.No? || Take(kind, got, f.value).None? then No else Got(Take(kind, got, f.value).value, f.end)
  }

  /** One field of an object: its name, its own check, and that it is new. */
  method ReadField(kind: Kind, t: seq<byte>, p: nat, got: Parts) returns (r: At<Parts>)
    requires Terminated(t) && p < |t|
    ensures r == TakenAt(kind, t, p, got)
  {
    hide ItemAt, KeyAt, BytesAt, StringAt, Fitted, TargetOk, OtherOk;
    FieldShape(t, p);
    FittedIs(t, p, FIELD_CAP);
    var key := ParseKey(t, p, FIELD_CAP);
    if key.No? {
      return No;
    }
    var isTarget := Says(key.value, "target");
    if !isTarget && !(if kind == Cache then Says(key.value, "key") else Says(key.value, "source")) {
      return No;
    }
    var cap := if isTarget || kind == Bind then PATH_CAP else CACHE_KEY_LEN + 1;
    FittedIs(t, key.end, cap);
    if BytesAt(t, key.end).Got? {
      TargetsAreShort(kind, BytesAt(t, key.end).value);
    }
    var text := ParseString(t, key.end, cap);
    if text.No? {
      return No;
    }
    var ok;
    if isTarget {
      ok := AcceptTarget(AsText(text.value), kind);
      TargetIs(kind, text.value);
    } else {
      ok := AcceptOther(kind, text.value);
    }
    if !ok || (if isTarget then got.target.Some? else got.other.Some?) {
      return No;
    }
    return Got(if isTarget then got.(target := Some(text.value)) else got.(other := Some(text.value)), text.end);
  }

  lemma TargetIs(kind: Kind, text: seq<byte>)
    ensures TargetOk(kind, text) <==> EntryPath(AsText(text)) && (kind == Bind ==> NotOwned(AsText(text)))
  {
  }

  /** One object of the list: its fields in any order, each of them once. */
  method ReadMount(kind: Kind, t: seq<byte>, start: nat) returns (r: At<MountText>)
    requires Terminated(t) && start < |t|
    ensures r == MountAt(kind, ItemAt(Objects, t, start))
  {
    hide ItemAt, ItemsAt, SkipWs, Take, TakeAll;
    ObjectIs(t, start);
    if t[start] != Ch('{') {
      return No;
    }
    var p := PassWs(t, start + 1);
    NoneTaken(kind);
    if t[p] == Ch('}') {
      return No;
    }
    var got := Parts(None, None);
    ghost var fs: seq<Item> := [];
    NonePrefixed(ItemsAt(Fields, t, p));
    while true
      invariant start < p < |t| && TakeAll(kind, fs) == Some(got)
      invariant ListAt(Fields, t, start) == Prefixed(fs, ItemsAt(Fields, t, p))
      decreases |t| - p
    {
      OneMoreItem(Fields, t, p, fs);
      var next := ReadField(kind, t, p, got);
      if next.No? {
        FieldDoomed(kind, t, p, fs, got);
        return No;
      }
      OneMoreTaken(kind, fs, ItemAt(Fields, t, p).value);
      got, fs := next.value, fs + [ItemAt(Fields, t, p).value];
      p := PassWs(t, next.end);
      if t[p] == Ch('}') {
        return if got.target.None? || got.other.None? then No else Got(MountText(got.target.value, got.other.value), p + 1);
      }
      if t[p] != Ch(',') {
        return No;
      }
      p := PassWs(t, p + 1);
    }
  }

  lemma NoneTaken(kind: Kind)
    ensures TakeAll(kind, []) == Some(Parts(None, None))
  {
  }

  lemma {:induction false} ListedInPart(kind: Kind, xs: seq<Item>, all: seq<Item>)
    requires xs <= all && MountsOf(kind, xs).None?
    ensures MountsOf(kind, all).None?
    decreases |all|
  {
    hide MountOf, Clear;
    if |xs| < |all| {
      ListedInPart(kind, xs, all[..|all| - 1]);
    } else {
      assert xs == all;
    }
  }

  lemma OneMoreMount(kind: Kind, xs: seq<Item>, ms: seq<MountText>, x: Item)
    requires MountsOf(kind, xs) == Some(ms)
    ensures MountsOf(kind, xs + [x]) ==
            if MountOf(kind, x).Some? && |ms| < Limit(kind) && Clear(ms, MountOf(kind, x).value) then Some(ms + [MountOf(kind, x).value]) else None
  {
    hide MountOf, Clear;
    assert (xs + [x])[..|xs|] == xs;
  }

  lemma MountDoomed(kind: Kind, t: seq<byte>, p: nat, xs: seq<Item>)
    requires Terminated(t) && p < |t| && (ItemAt(Objects, t, p).Got? ==> MountsOf(kind, xs + [ItemAt(Objects, t, p).value]).None?)
    ensures MountsValue(kind, Prefixed(xs, ItemsAt(Objects, t, p))).No?
  {
    hide ItemAt, ItemsAt, MountsOf;
    var r := Prefixed(xs, ItemsAt(Objects, t, p));
    if r.Got? {
      NextIsFirst(Objects, t, p, xs);
      ListedInPart(kind, xs + [ItemAt(Objects, t, p).value], r.value);
    }
  }

  /** `parse_build_cache_mounts_value` and `parse_build_context_binds_value`. */
  method ReadMounts(kind: Kind, t: seq<byte>, start: nat) returns (r: At<Value>)
    requires Terminated(t) && start < |t|
    ensures r == MountsValue(kind, ListAt(Objects, t, start))
  {
    hide ItemAt, ItemsAt, SkipWs, MountsOf, MountOf, Clear;
    if t[start] != Ch('[') {
      return No;
    }
    var p := PassWs(t, start + 1);
    NoMounts(kind);
    if t[p] == Ch(']') {
      return Got(Mounts([]), p + 1);
    }
    var ms: seq<MountText> := [];
    ghost var xs: seq<Item> := [];
    NonePrefixed(ItemsAt(Objects, t, p));
    while true
      invariant start < p < |t| && MountsOf(kind, xs) == Some(ms)
      invariant ListAt(Objects, t, start) == Prefixed(xs, ItemsAt(Objects, t, p))
      decreases |t| - p
    {
      OneMoreItem(Objects, t, p, xs);
      var next := ReadNextMount(kind, t, p, ms);
      ghost var x := ItemAt(Objects, t, p);
      if x.Got? {
        OneMoreMount(kind, xs, ms, x.value);
      }
      if next.No? {
        MountDoomed(kind, t, p, xs);
        return No;
      }
      ms, xs := ms + [next.value], xs + [x.value];
      p := PassWs(t, next.end);
      if t[p] == Ch(']') {
        return Got(Mounts(ms), p + 1);
      }
      if t[p] != Ch(',') {
        return No;
      }
      p := PassWs(t, p + 1);
    }
  }

  lemma NoMounts(kind: Kind)
    ensures MountsOf(kind, []) == Some([])
  {
  }

  /** The next mount of the list, apart from those before it. */
  method ReadNextMount(kind: Kind, t: seq<byte>, p: nat, ms: seq<MountText>) returns (r: At<MountText>)
    requires Terminated(t) && p < |t|
    ensures var m := MountAt(kind, ItemAt(Objects, t, p));
            r == if m.Got? && |ms| < Limit(kind) && Clear(ms, m.value) then m else No
  {
    hide ItemAt, MountOf, Overlaps, TargetTexts;
    if |ms| >= (if kind == Cache then MAX_BUILD_CACHE_MOUNTS else MAX_BUILD_CONTEXT_BINDS) {
      return No;
    }
    r := ReadMount(kind, t, p);
    if r.No? {
      return;
    }
    var ok := AcceptBeside(TargetTexts(ms), AsText(r.value.target));
    if !ok {
      return No;
    }
  }

  // ---- All of them ----

  /** `parse_json_optional_i64`. */
  method ReadTime(t: seq<byte>, p: nat) returns (r: At<Value>)
    requires Terminated(t) && p < |t|
    ensures r == TimeAt(t, p)
  {
    hide U64At;
    if Word(t, p, NULL) {
      return Got(Time(false, 0), p + 4);
    }
    var negative := t[p] == Ch('-');
    var magnitude := ParseU64(t, if negative then p + 1 else p);
    if magnitude.No? || (!negative && magnitude.value > INT64_MAX) || (negative && magnitude.value > INT64_MAX + 1) {
      return No;
    }
    return Got(Time(true, if negative then 0 - magnitude.value else magnitude.value), magnitude.end);
  }

  /** `parse_json_bool`. */
  method ReadBool(t: seq<byte>, p: nat) returns (r: At<bool>)
    ensures r == BoolAt(t, p)
  {
    if Word(t, p, TRUE) {
      return Got(true, p + |TRUE|);
    }
    if Word(t, p, FALSE) {
      return Got(false, p + |FALSE|);
    }
    return No;
  }

  /** What the cases of `parse_request_member` ask of a text. */
  method AcceptText(form: Form, text: seq<byte>) returns (ok: bool)
    ensures ok <==> TextOk(form, text)
  {
    hide Says;
    match form {
      case SomeText(_) => return |text| > 0;
      case RootedText(_) => return |text| > 0 && text[0] == Ch('/');
      case OneOf(_, names) =>
        for i := 0 to |names|
          invariant forall j :: 0 <= j < i ==> !Says(text, names[j])
        {
          if Says(text, names[i]) {
            return true;
          }
        }
        return false;
      case _ => return true;
    }
  }

  /** `parse_request_member`. */
  method ReadValue(form: Form, t: seq<byte>, p: nat) returns (r: At<Value>)
    requires Terminated(t) && p < |t| && (form.AnyText? || form.SomeText? || form.RootedText? || form.OneOf? ==> form.cap > 0)
    ensures r == ValueOf(form, t, p)
  {
    hide U64At, TimeAt, ListAt, StringAt, EncodeAll, StringsValue, MountsValue, TextOk;
    match form {
      case Numeric(least, most) =>
        var n := ParseU64(t, p);
        return if n.No? || n.value < least || n.value > most then No else Got(Number(n.value), n.end);
      case Boolean =>
        var b := ReadBool(t, p);
        return if b.No? then No else Got(Flag(b.value), b.end);
      case Always =>
        var b := ReadBool(t, p);
        return if b.No? || !b.value then No else Got(Flag(true), b.end);
      case Moment =>
        r := ReadTime(t, p);
      case Argv =>
        r := ReadStrings(form, t, p);
      case Env =>
        r := ReadStrings(form, t, p);
      case MountList(kind) =>
        r := ReadMounts(kind, t, p);
      case _ =>
        var text := ParseString(t, p, form.cap);
        if text.No? {
          return No;
        }
        var ok := AcceptText(form, text.value);
        return if ok then Got(Text(text.value), text.end) else No;
    }
  }
}
