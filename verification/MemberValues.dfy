/** How the value of each request member is read (guest/minimal-initrd/request.c). */
module MemberValues {
  import opened Bytes
  import opened Utf8
  import opened Json
  import opened PathText
  import opened TargetLists
  import opened MountTargets
  import Archive

  const MAX_ARGC := 16
  const MAX_ARG_STORAGE := 8192
  const MAX_ENVC := 64
  const MAX_ENV_LEN := 256
  const MAX_WORKDIR_LEN := 256
  const SESSION_ID_CAP := 64
  const PATH_CAP := MAX_COPY_PATH_LEN + 1
  const FIELD_CAP := 16
  const CACHE_KEY_LEN := 64
  const MAX_BUILD_RUN_COMMAND_LEN := 65536
  const MAX_BUILD_CONTEXT_COPY_ENTRIES := 65536
  const MAX_BUILD_INPUT_DISKS := 2
  const UINT16_MAX := 65535
  const INT64_MAX := 0x7FFF_FFFF_FFFF_FFFF

  datatype Option<T> = None | Some(value: T)

  /** A cache mount or a context bind: its target, and the cache's key or the bind's source. */
  datatype MountText = MountText(target: seq<byte>, other: seq<byte>)

  /** What a member holds. */
  datatype Value =
    | Text(text: seq<byte>)
    | Number(number: nat)
    | Flag(flag: bool)
    | Time(present: bool, seconds: int)
    | Strings(strings: seq<seq<byte>>)
    | Mounts(mounts: seq<MountText>)

  /** What a member must hold. */
  datatype Form =
    | AnyText(cap: nat)
    | SomeText(cap: nat)
    | RootedText(cap: nat)
    | OneOf(cap: nat, names: seq<string>)
    | Numeric(least: nat, most: nat)
    | Boolean
    | Always
    | Moment
    | Argv
    | Env
    | MountList(kind: Kind)

  const FORMS: seq<Form> := [
    AnyText(32), SomeText(SESSION_ID_CAP), Numeric(0, UINT64_MAX), Argv, Env, AnyText(MAX_WORKDIR_LEN),
    OneOf(8, ["null", "pipe", "tty"]), OneOf(8, ["xterm"]), Numeric(1, UINT16_MAX), Numeric(1, UINT16_MAX),
    Boolean, Boolean, AnyText(GEN_PARAMS_MAX), Boolean, Boolean, Boolean, Always,
    Numeric(0, UINT64_MAX), Numeric(0, UINT64_MAX), AnyText(PATH_CAP), Numeric(0, MAX_BUILD_RUN_COMMAND_LEN),
    MountList(Cache), MountList(Bind), Numeric(0, UINT64_MAX), Numeric(0, UINT64_MAX),
    SomeText(PATH_CAP), RootedText(PATH_CAP), OneOf(16, ["directory", "file", "sym_link", "auto"]), Boolean,
    Numeric(0, MAX_BUILD_CONTEXT_COPY_ENTRIES), OneOf(24, ["context", "build_input"]), Numeric(0, MAX_BUILD_INPUT_DISKS - 1),
    Moment, OneOf(16, ["follow", "link"])]

  /** The bytes say the same as the text. */
  predicate Says(b: seq<byte>, s: string) {
    |b| == |s| && forall i :: 0 <= i < |b| ==> b[i] == s[i] as int
  }

  /** The bytes as text. */
  function AsText(b: seq<byte>): (s: string)
    ensures Says(b, s)
  {
    seq(|b|, i requires 0 <= i < |b| => b[i] as char)
  }

  // ---- Lists of strings, of fields, and of objects of fields ----

  datatype Shape = Texts | Fields | Objects

  datatype Item = Str(text: seq<byte>) | Field(name: seq<byte>, text: seq<byte>) | Obj(fields: seq<Item>)

  ghost function Opener(k: Shape): byte {
    if k.Fields? then Ch('{') else Ch('[')
  }

  ghost function Shut(k: Shape): byte {
    if k.Fields? then Ch('}') else Ch(']')
  }

  /** A string at `p`, in UTF-8. */
  ghost function BytesAt(t: seq<byte>, p: nat): (r: At<seq<byte>>)
    requires Terminated(t) && p < |t|
    ensures r.Got? ==> p < r.end < |t|
  {
    match StringAt(t, p)
    case No => No
    case Got(cps, e) => Got(EncodeAll(cps), e)
  }

  /** One item of a list. */
  ghost function ItemAt(k: Shape, t: seq<byte>, p: nat): (r: At<Item>)
    requires Terminated(t) && p < |t|
    ensures r.Got? ==> p < r.end < |t|
    decreases |t| - p, 1
  {
    match k
    case Texts =>
      (match BytesAt(t, p)
       case No => No
       case Got(text, e) => Got(Str(text), e))
    case Fields =>
      (match KeyAt(t, p)
       case Bad => No
       case To(v) =>
         match BytesAt(t, v)
         case No => No
         case Got(text, e) => Got(Field(BytesAt(t, p).value, text), e))
    case Objects =>
      match ListAt(Fields, t, p)
      case No => No
      case Got(fields, e) => Got(Obj(fields), e)
  }

  /** The items from `p` to the closing bracket. */
  ghost function ItemsAt(k: Shape, t: seq<byte>, p: nat): (r: At<seq<Item>>)
    requires Terminated(t) && p < |t|
    ensures r.Got? ==> p < r.end < |t|
    decreases |t| - p, 2
  {
    match ItemAt(k, t, p)
    case No => No
    case Got(x, e) =>
      var q := SkipWs(t, e);
      if t[q] == Shut(k) then Got([x], q + 1)
      else if t[q] != Ch(',') then No
      else
        match ItemsAt(k, t, SkipWs(t, q + 1))
        case No => No
        case Got(more, end) => Got([x] + more, end)
  }

  ghost function ListAt(k: Shape, t: seq<byte>, p: nat): (r: At<seq<Item>>)
    requires Terminated(t) && p < |t|
    ensures r.Got? ==> p < r.end < |t|
    decreases |t| - p, 0
  {
    if t[p] != Opener(k) then No
    else
      var q := SkipWs(t, p + 1);
      if t[q] == Shut(k) then Got([], q + 1) else ItemsAt(k, t, q)
  }

  lemma ItemsStep(k: Shape, t: seq<byte>, p: nat)
    requires Terminated(t) && p < |t|
    ensures ItemAt(k, t, p).No? ==> ItemsAt(k, t, p).No?
    ensures ItemAt(k, t, p).Got? ==>
              var x, q := ItemAt(k, t, p).value, SkipWs(t, ItemAt(k, t, p).end);
              ItemsAt(k, t, p) ==
              if t[q] == Shut(k) then Got([x], q + 1)
              else if t[q] != Ch(',') then No
              else (match ItemsAt(k, t, SkipWs(t, q + 1))
                    case No => No
                    case Got(more, end) => Got([x] + more, end))
  {
    hide ItemAt, SkipWs;
  }

  // ---- What the items must be ----

  ghost function TextsOf(xs: seq<Item>): (ss: seq<seq<byte>>)
    ensures |ss| == |xs|
  {
    seq(|xs|, i requires 0 <= i < |xs| => if xs[i].Str? then xs[i].text else [])
  }

  /** The bytes that strings take in the argument buffer, with a NUL after each. */
  ghost function Storage(ss: seq<seq<byte>>): nat {
    if ss == [] then 0 else Storage(ss[..|ss| - 1]) + |ss[|ss| - 1]| + 1
  }

  /** The strings fit the arrays they are read into. */
  ghost predicate TextsFit(form: Form, ss: seq<seq<byte>>) {
    if form.Argv? then |ss| <= MAX_ARGC && Storage(ss) <= MAX_ARG_STORAGE
    else |ss| <= MAX_ENVC && forall i :: 0 <= i < |ss| ==> |ss[i]| < MAX_ENV_LEN
  }

  ghost predicate IsLowerHex(c: byte) {
    Ch('0') <= c <= Ch('9') || Ch('a') <= c <= Ch('f')
  }

  ghost function Limit(kind: Kind): nat {
    if kind == Cache then MAX_BUILD_CACHE_MOUNTS else MAX_BUILD_CONTEXT_BINDS
  }

  ghost function OtherName(kind: Kind): string {
    if kind == Cache then "key" else "source"
  }

  ghost function OtherCap(kind: Kind): nat {
    if kind == Cache then CACHE_KEY_LEN + 1 else PATH_CAP
  }

  /** `valid_build_cache_target` and `valid_build_context_bind_target`. */
  ghost predicate TargetOk(kind: Kind, text: seq<byte>) {
    EntryPath(AsText(text)) && (kind == Bind ==> NotOwned(AsText(text)))
  }

  /** `valid_build_cache_key` and `valid_build_context_bind_source`. */
  ghost predicate OtherOk(kind: Kind, text: seq<byte>) {
    if kind == Cache then |text| == CACHE_KEY_LEN && forall i :: 0 <= i < |text| ==> IsLowerHex(text[i])
    else text != [] && Archive.ArchivePath(AsText(text))
  }

  datatype Parts = Parts(target: Option<seq<byte>>, other: Option<seq<byte>>)

  /** What the fields of an object come to, each for the first time. */
  ghost function Take(kind: Kind, got: Parts, f: Item): Option<Parts> {
    if !f.Field? then None
    else if Says(f.name, "target") then
      if TargetOk(kind, f.text) && got.target.None? then Some(got.(target := Some(f.text))) else None
    else if Says(f.name, OtherName(kind)) && OtherOk(kind, f.text) && got.other.None? then Some(got.(other := Some(f.text)))
    else None
  }

  ghost function TakeAll(kind: Kind, fs: seq<Item>): Option<Parts> {
    if fs == [] then Some(Parts(None, None))
    else
      match TakeAll(kind, fs[..|fs| - 1])
      case None => None
      case Some(got) => Take(kind, got, fs[|fs| - 1])
  }

  ghost function Made(got: Option<Parts>): Option<MountText> {
    if got.Some? && got.value.target.Some? && got.value.other.Some?
    then Some(MountText(got.value.target.value, got.value.other.value)) else None
  }

  ghost function MountOf(kind: Kind, x: Item): Option<MountText> {
    if x.Obj? then Made(TakeAll(kind, x.fields)) else None
  }

  function TargetTexts(ms: seq<MountText>): (ss: seq<string>)
    ensures |ss| == |ms|
  {
    seq(|ms|, i requires 0 <= i < |ms| => AsText(ms[i].target))
  }

  /** No target lies on the way to the one that comes next. */
  ghost predicate Clear(ms: seq<MountText>, m: MountText) {
    forall i :: 0 <= i < |ms| ==> !Overlaps(TargetTexts(ms)[i], AsText(m.target))
  }

  ghost function MountsOf(kind: Kind, xs: seq<Item>): Option<seq<MountText>> {
    if xs == [] then Some([])
    else
      match MountsOf(kind, xs[..|xs| - 1])
      case None => None
      case Some(ms) =>
        match MountOf(kind, xs[|xs| - 1])
        case None => None
        case Some(m) => if |ms| < Limit(kind) && Clear(ms, m) then Some(ms + [m]) else None
  }

  // ---- The value of each form ----

  /** The bytes are the UTF-8 of some characters. */
  ghost predicate IsUtf8(b: seq<byte>) {
    exists cps :: AllScalar(cps) && EncodeAll(cps) == b
  }

  ghost predicate AllUtf8(ss: seq<seq<byte>>) {
    forall i :: 0 <= i < |ss| ==> IsUtf8(ss[i])
  }

  /** The value can be written: its texts are UTF-8, and no time has no seconds. */
  ghost predicate Spellable(v: Value) {
    match v
    case Text(text) => IsUtf8(text)
    case Strings(ss) => AllUtf8(ss)
    case Mounts(ms) => forall i :: 0 <= i < |ms| ==> IsUtf8(ms[i].target) && IsUtf8(ms[i].other)
    case Time(present, seconds) => present || seconds == 0
    case _ => true
  }

  ghost function TextAt(t: seq<byte>, p: nat, cap: nat): At<seq<byte>>
    requires Terminated(t) && p < |t|
  {
    Fitted(StringAt(t, p), cap)
  }

  ghost function BoolAt(t: seq<byte>, p: nat): At<bool> {
    if Word(t, p, TRUE) then Got(true, p + 4) else if Word(t, p, FALSE) then Got(false, p + 5) else No
  }

  /** `parse_json_optional_i64`: null, or a whole number that 64 bits hold with a sign. */
  ghost function TimeAt(t: seq<byte>, p: nat): (r: At<Value>)
    requires Terminated(t) && p < |t|
  {
    if Word(t, p, NULL) then Got(Time(false, 0), p + 4)
    else
      var negative := t[p] == Ch('-');
      match U64At(t, if negative then p + 1 else p)
      case No => No
      case Got(n, e) => if n > (if negative then INT64_MAX + 1 else INT64_MAX) then No else Got(Time(true, if negative then 0 - n else n), e)
  }

  /** The text meets what the form asks of it. */
  ghost predicate TextOk(form: Form, text: seq<byte>) {
    match form
    case SomeText(_) => text != []
    case RootedText(_) => text != [] && text[0] == Ch('/')
    case OneOf(_, names) => exists i :: 0 <= i < |names| && Says(text, names[i])
    case _ => true
  }

  ghost function StringsValue(form: Form, r: At<seq<Item>>): At<Value> {
    if r.No? then No
    else
      var ss := TextsOf(r.value);
      if TextsFit(form, ss) && (form.Argv? && ss != [] ==> ss[0] != []) then Got(Strings(ss), r.end) else No
  }

  ghost function MountsValue(kind: Kind, r: At<seq<Item>>): At<Value> {
    if r.No? || MountsOf(kind, r.value).None? then No else Got(Mounts(MountsOf(kind, r.value).value), r.end)
  }

  /** `parse_request_member`: the value of a member of this form, and where it ends. */
  ghost function ValueOf(form: Form, t: seq<byte>, p: nat): (r: At<Value>)
    requires Terminated(t) && p < |t|
    ensures r.Got? ==> p < r.end < |t|
  {
    match form
    case Numeric(least, most) =>
      (match U64At(t, p)
       case No => No
       case Got(n, e) => if least <= n <= most then Got(Number(n), e) else No)
    case Boolean =>
      (match BoolAt(t, p)
       case No => No
       case Got(b, e) => Got(Flag(b), e))
    case Always =>
      (match BoolAt(t, p)
       case No => No
       case Got(b, e) => if b then Got(Flag(b), e) else No)
    case Moment => TimeAt(t, p)
    case Argv => StringsValue(form, ListAt(Texts, t, p))
    case Env => StringsValue(form, ListAt(Texts, t, p))
    case MountList(kind) => MountsValue(kind, ListAt(Objects, t, p))
    case _ =>
      (match TextAt(t, p, form.cap)
       case No => No
       case Got(text, e) => if TextOk(form, text) then Got(Text(text), e) else No)
  }
}
