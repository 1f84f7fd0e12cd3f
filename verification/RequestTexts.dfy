/** Requests written out from their members, and what the agent accepts
    (guest/minimal-initrd/request.c). */
module RequestTexts {
  import opened Bytes
  import opened Utf8
  import opened Json
  import opened JsonText
  import opened MountTargets
  import opened TargetLists
  import opened MemberNames
  import opened MemberValues
  import opened MemberTexts
  import opened RequestRules
  import opened Requests
  import opened RequestLayout
  import opened RunRequests

  // ---- No text holds a NUL ----

  lemma QuotedIsClean(b: seq<byte>)
    requires IsUtf8(b)
    ensures Clean(Quoted(b))
  {
    hide CharsText, AllScalar, IsUtf8;
    CharsAreClean(Characters(b));
  }

  lemma {:induction false} SeparatedIsClean(texts: seq<seq<byte>>, close: byte)
    requires texts != [] && close != 0 && forall i :: 0 <= i < |texts| ==> Clean(texts[i])
    ensures Clean(Separated(texts, close))
    decreases |texts|
  {
    if |texts| > 1 {
      SeparatedIsClean(texts[1..], close);
    }
  }

  lemma ListIsClean(k: Shape, texts: seq<seq<byte>>)
    requires forall i :: 0 <= i < |texts| ==> Clean(texts[i])
    ensures Clean(ListText(k, texts))
  {
    hide Separated;
    if texts != [] {
      SeparatedIsClean(texts, CloseOf(k));
    }
  }

  lemma FieldIsClean(name: seq<byte>, text: seq<byte>)
    requires IsUtf8(name) && IsUtf8(text)
    ensures Clean(FieldText(name, text))
  {
    hide Quoted, IsUtf8;
    QuotedIsClean(name);
    QuotedIsClean(text);
  }

  lemma MountIsClean(kind: Kind, m: MountText)
    requires IsUtf8(m.target) && IsUtf8(m.other)
    ensures Clean(MountJson(kind, m))
  {
    hide FieldText, IsUtf8, TargetName, KeyName, ListText, Clean;
    FieldIsClean(TargetName(), m.target);
    FieldIsClean(KeyName(kind), m.other);
    ListIsClean(Fields, [FieldText(TargetName(), m.target), FieldText(KeyName(kind), m.other)]);
  }

  lemma ValueIsClean(form: Form, v: Value)
    requires Spellable(v)
    ensures Clean(ValueText(form, v))
  {
    hide Quoted, IsUtf8, ListText, MountJson;
    match v
    case Text(text) => QuotedIsClean(text);
    case Strings(ss) =>
      forall i | 0 <= i < |ss| ensures Clean(QuotedAll(ss)[i]) {
        QuotedIsClean(ss[i]);
      }
      ListIsClean(Texts, QuotedAll(ss));
    case Mounts(ms) =>
      var kind := if form.MountList? then form.kind else Cache;
      forall i | 0 <= i < |ms| ensures Clean(MountJsons(kind, ms)[i]) {
        MountIsClean(kind, ms[i]);
      }
      ListIsClean(Objects, MountJsons(kind, ms));
    case _ =>
  }

  // ---- Requests ----

  ghost function NameBytes(id: nat): (b: seq<byte>)
    requires id < |MEMBER_NAMES|
    ensures IsUtf8(b) && Says(b, MEMBER_NAMES[id])
  {
    NameIsShort(id);
    AsciiIsUtf8(WordBytes(MEMBER_NAMES[id]));
    WordBytes(MEMBER_NAMES[id])
  }

  /** Members that can be written: each of its form. */
  ghost predicate Writable(m: map<nat, Value>) {
    forall id :: id in m ==> id < |FORMS| && id < |MEMBER_NAMES| && Formed(FORMS[id], m[id])
  }

  /** A member as it is written: its name, a colon and its value. */
  ghost function SlotOf(id: nat, v: Value): Slot
    requires id < |MEMBER_NAMES| && id < |FORMS| && Spellable(v)
  {
    Slot([], Quoted(NameBytes(id)), [], [], ValueText(FORMS[id], v), [])
  }

  lemma CleanIsTerminated(b: seq<byte>)
    requires Clean(b)
    ensures Terminated(Alone(b)) && Stands(Alone(b), 0, b) && Ends(Alone(b), |b|)
  {
    assert Alone(b)[0..0 + |b|] == b;
  }

  lemma NameIsName(id: nat)
    requires id < |MEMBER_NAMES|
    ensures IsName(Quoted(NameBytes(id))) && NameOf(Quoted(NameBytes(id))) == NameBytes(id)
  {
    hide Quoted, StringAt, EncodeAll, IsUtf8, MEMBER_NAMES, Terminated, Stands;
    var b := NameBytes(id);
    QuotedIsClean(b);
    CleanIsTerminated(Quoted(b));
    QuotedReads(Alone(Quoted(b)), 0, b);
    NameIsShort(id);
  }

  lemma MostFits(id: nat)
    requires id < |FORMS|
    ensures FORMS[id].Numeric? ==> FORMS[id].most <= 0xFFFF_FFFF_FFFF_FFFF
  {
  }

  lemma FormedIsSpellable(form: Form, v: Value)
    requires Formed(form, v)
    ensures Spellable(v)
  {
  }

  /** A member that is written out means that member. */
  lemma SlotMeans(id: nat, v: Value)
    requires id < |MEMBER_NAMES| && id < |FORMS| && Formed(FORMS[id], v)
    ensures Tidy(SlotOf(id, v)) && Means(SlotOf(id, v), Member(id, v))
  {
    hide Quoted, ValueText, ValueOf, IsUtf8, Formed, Spellable, FORMS, MEMBER_NAMES, IsName, NameOf, Terminated, Says;
    NameIsName(id);
    NameIsFound(NameBytes(id), id);
    FormedIsSpellable(FORMS[id], v);
    ValueIsClean(FORMS[id], v);
    var text := ValueText(FORMS[id], v);
    CleanIsTerminated(text);
    MostFits(id);
    ValueTextReads(FORMS[id], v, Alone(text), 0);
  }

  /** The members in the order of `ids`. */
  ghost function InOrder(ids: seq<nat>, m: map<nat, Value>): (ms: seq<Member>)
    requires forall i :: 0 <= i < |ids| ==> ids[i] in m
    ensures |ms| == |ids| && forall i :: 0 <= i < |ms| ==> ms[i] == Member(ids[i], m[ids[i]])
  {
    seq(|ids|, i requires 0 <= i < |ids| => Member(ids[i], m[ids[i]]))
  }

  ghost function Slots(ids: seq<nat>, m: map<nat, Value>): (ss: seq<Slot>)
    requires Writable(m) && forall i :: 0 <= i < |ids| ==> ids[i] in m
    ensures |ss| == |ids| && forall i :: 0 <= i < |ss| ==> ss[i] == SlotOf(ids[i], m[ids[i]])
  {
    seq(|ids|, i requires 0 <= i < |ids| => SlotOf(ids[i], m[ids[i]]))
  }

  /** The order lists each member once. */
  ghost predicate Lists(ids: seq<nat>, m: map<nat, Value>) {
    && (forall i :: 0 <= i < |ids| ==> ids[i] in m) && (forall id :: id in m ==> id in ids)
    && (forall i, j :: 0 <= i < j < |ids| ==> ids[i] != ids[j])
  }

  lemma SlotsMean(ids: seq<nat>, m: map<nat, Value>)
    requires Writable(m) && Lists(ids, m)
    ensures AllTidy(Slots(ids, m)) && AllMean(Slots(ids, m), InOrder(ids, m))
  {
    hide Tidy, Means, SlotOf, Formed, Spellable, FORMS, MEMBER_NAMES;
    forall i | 0 <= i < |ids| ensures Tidy(Slots(ids, m)[i]) && Means(Slots(ids, m)[i], InOrder(ids, m)[i]) {
      SlotMeans(ids[i], m[ids[i]]);
    }
  }

  /** A request with these members, in that order and on one line. */
  ghost function RequestText(ids: seq<nat>, m: map<nat, Value>): seq<byte>
    requires Writable(m) && Lists(ids, m) && m != map[]
  {
    SlotsMean(ids, m);
    Written([], Slots(ids, m), [10])
  }

  lemma OrderedIsMap(ids: seq<nat>, m: map<nat, Value>)
    requires Lists(ids, m)
    ensures Distinct(InOrder(ids, m)) && AsMap(InOrder(ids, m)) == m
  {
    var ms := InOrder(ids, m);
    AsMapHolds(ms);
    forall id | id in m ensures id in AsMap(ms) && AsMap(ms)[id] == m[id] {
      var i :| 0 <= i < |ids| && ids[i] == id;
      assert ms[i].id == id;
    }
    assert AsMap(ms).Keys == m.Keys;
  }

  /** A request that is written out from members is judged by just those members. */
  lemma WrittenIsAnswered(ids: seq<nat>, m: map<nat, Value>)
    requires Writable(m) && Lists(ids, m) && m != map[]
    ensures Answer(RequestText(ids, m)) == Judge(m, 0)
  {
    hide Writable, Judge, AsMap, Distinct, SlotsText, AllMean, AllTidy, Slots, Answer;
    SlotsMean(ids, m);
    SomeMember(ids, m);
    assert [] + [10] == [10];
    LayoutIsNothing([], Slots(ids, m), [], InOrder(ids, m), [], Slots(ids, m), [], InOrder(ids, m));
    OrderedIsMap(ids, m);
  }

  lemma SomeMember(ids: seq<nat>, m: map<nat, Value>)
    requires Writable(m) && Lists(ids, m) && m != map[]
    ensures ids != [] && Slots(ids, m) != []
  {
    hide Writable, SlotOf;
    var id :| id in m;
  }

  /** Every request the rules allow is accepted as what it says, in whatever order its members come. */
  lemma AllowedIsAccepted(k: nat, ids: seq<nat>, m: map<nat, Value>)
    requires k < |SPECS| && Typed(m, k) && m.Keys == SPECS[k].members && Allowed(k, m) && Writable(m) && Lists(ids, m)
    ensures m != map[] && Answer(RequestText(ids, m)) == Accepted(k, m)
  {
    hide Writable, Lists, Judge, Answer, Allowed, SPECS, Says;
    assert TYPE in m;
    WrittenIsAnswered(ids, m);
    JudgedExactly(m, k);
  }

  lemma {:induction false} SomeOrder(m: map<nat, Value>) returns (ids: seq<nat>)
    ensures Lists(ids, m)
    decreases |m|
  {
    if m == map[] {
      ids := [];
    } else {
      var id :| id in m;
      assert (m - {id}).Keys == m.Keys - {id};
      var rest := SomeOrder(m - {id});
      ids := [id] + rest;
      forall x | x in m ensures x in ids {
        assert x != id ==> x in m - {id};
      }
    }
  }

  /** What some request is accepted as, exactly: the members of a kind, each of
      its form, that name the kind and keep its rules. */
  lemma AcceptedExactly(k: nat, m: map<nat, Value>)
    ensures (exists req :: Answer(req) == Accepted(k, m)) <==>
            k < |SPECS| && Typed(m, k) && m.Keys == SPECS[k].members && Allowed(k, m) && Writable(m)
  {
    hide Writable, Lists, Answer, Allowed, SPECS, Typed;
    if exists req :: Answer(req) == Accepted(k, m) {
      var req :| Answer(req) == Accepted(k, m);
      AcceptedIsWritable(req);
      AcceptedIsTyped(req);
    }
    if k < |SPECS| && Typed(m, k) && m.Keys == SPECS[k].members && Allowed(k, m) && Writable(m) {
      var ids := SomeOrder(m);
      AllowedIsAccepted(k, ids, m);
    }
  }

  lemma AcceptedIsWritable(req: seq<byte>)
    requires Answer(req).Accepted?
    ensures Writable(Answer(req).members)
  {
    hide Answer, Allowed, SPECS, Formed;
    AcceptedIsFormed(req);
    NamesCounted();
    FormsCounted();
  }

  lemma FormsCounted()
    ensures |FORMS| == 34
  {
  }

  lemma AcceptedIsTyped(req: seq<byte>)
    requires Answer(req).Accepted?
    ensures var r := Answer(req);
            r.kind < |SPECS| && Typed(r.members, r.kind) && r.members.Keys == SPECS[r.kind].members && Allowed(r.kind, r.members)
  {
    hide ObjectIn, Judge, Allowed, SPECS, AsCString, Says;
    JudgedByType(AsMap(ObjectIn(AsCString(req)).value), 0);
  }

  // ---- The rules, on members that are all there ----

  lemma StartForms()
    ensures |FORMS| == 34 && FORMS[ARGV].Argv? && FORMS[WORKING_DIR].AnyText? && FORMS[STDIO].OneOf?
    ensures FORMS[INTERACTIVE].Boolean? && FORMS[DETACHED].Boolean? && FORMS[RETAIN_OUTPUT].Boolean?
  {
  }

  lemma CopyForms()
    ensures |FORMS| == 34 && FORMS[SOURCE_KIND].OneOf? && FORMS[ENTRY_COUNT].Numeric? && FORMS[SOURCE_DISK].OneOf?
    ensures FORMS[INPUT_INDEX].Numeric? && FORMS[DESTINATION_POLICY].OneOf?
  {
  }

  lemma RunForms()
    ensures |FORMS| == 34 && FORMS[TERMINAL_ROWS].Numeric? && FORMS[TERMINAL_COLS].Numeric? && FORMS[MEMORY_PRESSURE].Boolean?
    ensures FORMS[COMMAND_LEN].Numeric? && FORMS[NOFILE_SOFT].Numeric? && FORMS[NOFILE_HARD].Numeric?
  {
  }

  /** Whose rules they are, and what the members they look at are called. */
  lemma RulesAreNamed()
    ensures |SPECS| == 12 && SPECS[START].name == "start-v1" && SPECS[ATTACH].name == "attach-v1"
    ensures SPECS[BUILD_RUN].name == "spore-build-run-v4" && SPECS[BUILD_COPY].name == "spore-build-copy-v5" && SPECS[BUILD_WORKDIR].name == "spore-build-workdir-v1"
    ensures MEMBER_NAMES[TYPE] == "type" && MEMBER_NAMES[ARGV] == "argv" && MEMBER_NAMES[WORKING_DIR] == "working_dir" && MEMBER_NAMES[STDIO] == "stdio"
    ensures MEMBER_NAMES[TERMINAL_ROWS] == "terminal_rows" && MEMBER_NAMES[TERMINAL_COLS] == "terminal_cols" && MEMBER_NAMES[INTERACTIVE] == "interactive"
    ensures MEMBER_NAMES[MEMORY_PRESSURE] == "memory_pressure" && MEMBER_NAMES[DETACHED] == "detached" && MEMBER_NAMES[RETAIN_OUTPUT] == "retain_output"
    ensures MEMBER_NAMES[COMMAND_LEN] == "command_len" && MEMBER_NAMES[CACHE_MOUNTS] == "cache_mounts" && MEMBER_NAMES[CONTEXT_BINDS] == "context_binds"
    ensures MEMBER_NAMES[NOFILE_SOFT] == "nofile_soft" && MEMBER_NAMES[NOFILE_HARD] == "nofile_hard" && MEMBER_NAMES[SOURCE_KIND] == "source_kind"
    ensures MEMBER_NAMES[ENTRY_COUNT] == "entry_count" && MEMBER_NAMES[SOURCE_DISK] == "source_disk" && MEMBER_NAMES[INPUT_INDEX] == "input_index"
    ensures MEMBER_NAMES[DESTINATION_POLICY] == "destination_policy"
  {
  }

  /** A start request has arguments, a directory from the root if any, and keeps
      output or reads nothing only when it is detached. */
  lemma StartRules(m: map<nat, Value>)
    requires Writable(m) && {ARGV, WORKING_DIR, STDIO, DETACHED, RETAIN_OUTPUT} <= m.Keys
    ensures m[ARGV].Strings? && m[WORKING_DIR].Text? && m[STDIO].Text? && m[DETACHED].Flag? && m[RETAIN_OUTPUT].Flag?
    ensures Allowed(START, m) <==>
            && m[ARGV] != Strings([]) && (m[WORKING_DIR] == Text([]) || m[WORKING_DIR].text[0] == 0x2F)
            && !(m[RETAIN_OUTPUT] == Flag(true) && m[DETACHED] == Flag(false))
            && (m[DETACHED] == Flag(true) ==> Says(m[STDIO].text, "null"))
  {
    hide FORMS, Says, TextsFit, TextOk, MountsFormed;
    StartForms();
    assert Formed(FORMS[ARGV], m[ARGV]) && Formed(FORMS[WORKING_DIR], m[WORKING_DIR]) && Formed(FORMS[STDIO], m[STDIO]);
    assert Formed(FORMS[DETACHED], m[DETACHED]) && Formed(FORMS[RETAIN_OUTPUT], m[RETAIN_OUTPUT]);
  }

  /** An attach request that asks for a pipe is interactive, and one that asks for none is not. */
  lemma AttachRules(m: map<nat, Value>)
    requires Writable(m) && {STDIO, INTERACTIVE} <= m.Keys
    ensures m[STDIO].Text? && m[INTERACTIVE].Flag?
    ensures Allowed(ATTACH, m) <==>
            && !(Says(m[STDIO].text, "pipe") && m[INTERACTIVE] == Flag(false))
            && !(Says(m[STDIO].text, "null") && m[INTERACTIVE] == Flag(true))
  {
    hide FORMS, Says, TextsFit, TextOk, MountsFormed;
    StartForms();
    assert Formed(FORMS[STDIO], m[STDIO]) && Formed(FORMS[INTERACTIVE], m[INTERACTIVE]);
  }

  /** A COPY request counts the entries of the context, and only of that; a link goes with a build input. */
  lemma CopyRules(m: map<nat, Value>)
    requires Writable(m) && {SOURCE_KIND, ENTRY_COUNT, SOURCE_DISK, INPUT_INDEX, DESTINATION_POLICY} <= m.Keys
    ensures m[SOURCE_KIND].Text? && m[ENTRY_COUNT].Number? && m[SOURCE_DISK].Text? && m[INPUT_INDEX].Number? && m[DESTINATION_POLICY].Text?
    ensures Allowed(BUILD_COPY, m) <==>
            && (Says(m[SOURCE_DISK].text, "context") ==>
                  !Says(m[SOURCE_KIND].text, "auto") && m[ENTRY_COUNT].number > 0 && m[INPUT_INDEX] == Number(0))
            && (!Says(m[SOURCE_DISK].text, "context") ==> Says(m[SOURCE_KIND].text, "auto") && m[ENTRY_COUNT] == Number(0))
            && (Says(m[DESTINATION_POLICY].text, "link") ==> Says(m[SOURCE_DISK].text, "build_input"))
  {
    hide FORMS, Says, TextsFit, TextOk, MountsFormed;
    CopyForms();
    assert Formed(FORMS[SOURCE_KIND], m[SOURCE_KIND]) && Formed(FORMS[ENTRY_COUNT], m[ENTRY_COUNT]) && Formed(FORMS[SOURCE_DISK], m[SOURCE_DISK]);
    assert Formed(FORMS[INPUT_INDEX], m[INPUT_INDEX]) && Formed(FORMS[DESTINATION_POLICY], m[DESTINATION_POLICY]);
  }

  /** A RUN request is on a pipe of 24 by 80 from a directory, under a limit of
      files, and is either streamed or has arguments and no binds. */
  lemma RunRules(m: map<nat, Value>)
    requires Writable(m) && {ARGV, WORKING_DIR, STDIO, TERMINAL_ROWS, TERMINAL_COLS, MEMORY_PRESSURE} <= m.Keys
    requires {COMMAND_LEN, CACHE_MOUNTS, CONTEXT_BINDS, NOFILE_SOFT, NOFILE_HARD} <= m.Keys
    ensures m[ARGV].Strings? && m[WORKING_DIR].Text? && m[STDIO].Text? && m[COMMAND_LEN].Number? && m[NOFILE_SOFT].Number? && m[NOFILE_HARD].Number?
    ensures m[CACHE_MOUNTS].Mounts? && m[CONTEXT_BINDS].Mounts?
    ensures Allowed(BUILD_RUN, m) <==>
            && m[WORKING_DIR] != Text([]) && m[WORKING_DIR].text[0] == 0x2F && Says(m[STDIO].text, "pipe")
            && m[TERMINAL_ROWS] == Number(24) && m[TERMINAL_COLS] == Number(80) && m[MEMORY_PRESSURE] == Flag(false)
            && 0 < m[NOFILE_SOFT].number <= m[NOFILE_HARD].number <= 1048576
            && TotalLength(m[ARGV].strings) <= 4096
            && (if m[ARGV] == Strings([]) then m[COMMAND_LEN] != Number(0) else m[COMMAND_LEN] == Number(0) && m[CONTEXT_BINDS] == Mounts([]))
            && forall b, c :: b in m[CONTEXT_BINDS].mounts && c in m[CACHE_MOUNTS].mounts ==> !Overlaps(AsText(c.target), AsText(b.target))
  {
    hide FORMS, Says, TextsFit, TextOk, MountsFormed, TotalLength, Overlaps, IsUtf8;
    StartForms();
    RunForms();
    MountForms();
    assert Formed(FORMS[ARGV], m[ARGV]) && Formed(FORMS[WORKING_DIR], m[WORKING_DIR]) && Formed(FORMS[STDIO], m[STDIO]);
    assert Formed(FORMS[TERMINAL_ROWS], m[TERMINAL_ROWS]) && Formed(FORMS[TERMINAL_COLS], m[TERMINAL_COLS]) && Formed(FORMS[MEMORY_PRESSURE], m[MEMORY_PRESSURE]);
    assert Formed(FORMS[COMMAND_LEN], m[COMMAND_LEN]) && Formed(FORMS[NOFILE_SOFT], m[NOFILE_SOFT]) && Formed(FORMS[NOFILE_HARD], m[NOFILE_HARD]);
    assert Formed(FORMS[CACHE_MOUNTS], m[CACHE_MOUNTS]) && Formed(FORMS[CONTEXT_BINDS], m[CONTEXT_BINDS]);
    AcrossIs(m[CACHE_MOUNTS].mounts, m[CONTEXT_BINDS].mounts);
  }

  lemma AcrossIs(caches: seq<MountText>, binds: seq<MountText>)
    ensures NoneAcross(TargetTexts(caches), TargetTexts(binds)) <==>
            forall b, c :: b in binds && c in caches ==> !Overlaps(AsText(c.target), AsText(b.target))
  {
    hide Overlaps;
    if NoneAcross(TargetTexts(caches), TargetTexts(binds)) {
      forall b, c | b in binds && c in caches ensures !Overlaps(AsText(c.target), AsText(b.target)) {
        var i :| 0 <= i < |binds| && binds[i] == b;
        var j :| 0 <= j < |caches| && caches[j] == c;
        assert !Overlaps(TargetTexts(caches)[j], TargetTexts(binds)[i]);
      }
    }
  }
}
