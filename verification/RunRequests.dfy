/** What the agent knows of a request it has accepted, and of a RUN request's
    mounts in particular (guest/minimal-initrd/request.c). */
module RunRequests {
  import opened Bytes
  import opened Utf8
  import opened Json
  import opened PathText
  import opened TargetLists
  import opened MountTargets
  import opened RunMounts
  import opened MountTables
  import opened MemberNames
  import opened MemberValues
  import opened RequestRules
  import opened Requests

  // ---- One mount ----

  /** A field with a name and a text that its own check lets through. */
  ghost predicate IsTarget(kind: Kind, f: Item) {
    f.Field? && Says(f.name, "target") && TargetOk(kind, f.text)
  }

  ghost predicate IsOther(kind: Kind, f: Item) {
    f.Field? && Says(f.name, OtherName(kind)) && OtherOk(kind, f.text)
  }

  lemma Apart(kind: Kind, b: seq<byte>)
    ensures !(Says(b, "target") && Says(b, OtherName(kind)))
  {
    if kind == Bind && Says(b, "target") {
      assert "target"[0] != "source"[0];
    }
  }

  lemma TakeIs(kind: Kind, got: Parts, f: Item)
    ensures Take(kind, got, f) ==
            if IsTarget(kind, f) && got.target.None? then Some(got.(target := Some(f.text)))
            else if IsOther(kind, f) && got.other.None? then Some(got.(other := Some(f.text)))
            else None
    ensures !(IsTarget(kind, f) && IsOther(kind, f))
  {
    hide TargetOk, OtherOk, Says;
    if f.Field? {
      Apart(kind, f.name);
    }
  }

  /** Parts that were taken passed their checks. */
  ghost predicate PartsOk(kind: Kind, fs: seq<Item>, got: Parts) {
    && (got.target.Some? ==> exists i :: 0 <= i < |fs| && IsTarget(kind, fs[i]) && got.target.value == fs[i].text)
    && (got.other.Some? ==> exists i :: 0 <= i < |fs| && IsOther(kind, fs[i]) && got.other.value == fs[i].text)
    && |fs| == (if got.target.Some? then 1 else 0) + (if got.other.Some? then 1 else 0)
  }

  lemma {:induction false} TakenIsOk(kind: Kind, fs: seq<Item>)
    requires TakeAll(kind, fs).Some?
    ensures PartsOk(kind, fs, TakeAll(kind, fs).value)
    decreases |fs|
  {
    hide Take, IsTarget, IsOther;
    if fs != [] {
      var n := |fs| - 1;
      var before := fs[..n];
      TakenIsOk(kind, before);
      var got := TakeAll(kind, before).value;
      TakeIs(kind, got, fs[n]);
      assert forall i :: 0 <= i < n ==> before[i] == fs[i];
    }
  }

  /** An object is a mount exactly when it has the two fields of its kind, in
      either order, and nothing else. */
  lemma MountIsTwoFields(kind: Kind, fs: seq<Item>)
    ensures Made(TakeAll(kind, fs)).Some? <==>
              |fs| == 2 && ((IsTarget(kind, fs[0]) && IsOther(kind, fs[1])) || (IsOther(kind, fs[0]) && IsTarget(kind, fs[1])))
    ensures Made(TakeAll(kind, fs)).Some? ==>
              var m := Made(TakeAll(kind, fs)).value;
              m == if IsTarget(kind, fs[0]) then MountText(fs[0].text, fs[1].text) else MountText(fs[1].text, fs[0].text)
  {
    hide Take, IsTarget, IsOther;
    if TakeAll(kind, fs).Some? {
      TakenIsOk(kind, fs);
    }
    if |fs| == 2 {
      TakesTwo(kind, fs[0], fs[1]);
      assert fs == [fs[0], fs[1]];
    }
  }

  lemma TakesTwo(kind: Kind, f: Item, g: Item)
    ensures Made(TakeAll(kind, [f, g])) ==
            if IsTarget(kind, f) && IsOther(kind, g) then Some(MountText(f.text, g.text))
            else if IsOther(kind, f) && IsTarget(kind, g) then Some(MountText(g.text, f.text))
            else None
    ensures !(IsTarget(kind, f) && IsOther(kind, f))
  {
    hide Take, IsTarget, IsOther;
    IsAField(kind, f);
    IsAField(kind, g);
    assert [f, g][..1] == [f] && [f][..0] == [];
    assert TakeAll(kind, []) == Some(Parts(None, None));
    TakeIs(kind, Parts(None, None), f);
    if TakeAll(kind, [f]).Some? {
      TakeIs(kind, TakeAll(kind, [f]).value, g);
    }
  }

  lemma IsAField(kind: Kind, f: Item)
    ensures IsTarget(kind, f) || IsOther(kind, f) ==> f.Field?
  {
  }

  // ---- Lists of mounts ----

  /** A list of mounts that was read: short, every part checked, no target on the way to another. */
  ghost predicate MountsFormed(kind: Kind, ms: seq<MountText>) {
    && |ms| <= Limit(kind) && NoOverlaps(TargetTexts(ms))
    && forall i :: 0 <= i < |ms| ==> TargetOk(kind, ms[i].target) && OtherOk(kind, ms[i].other)
  }

  lemma MountIsOk(kind: Kind, x: Item)
    requires MountOf(kind, x).Some?
    ensures TargetOk(kind, MountOf(kind, x).value.target) && OtherOk(kind, MountOf(kind, x).value.other)
  {
    hide TakeAll, Made, TargetOk, OtherOk, Says;
    MountIsTwoFields(kind, x.fields);
    TakesTwo(kind, x.fields[0], x.fields[1]);
  }

  /** A list that is read is short enough, each of its objects is a mount, and no
      two of the targets overlap. */
  lemma {:induction false} MountsAreFormed(kind: Kind, xs: seq<Item>)
    requires MountsOf(kind, xs).Some?
    ensures MountsFormed(kind, MountsOf(kind, xs).value) && |MountsOf(kind, xs).value| == |xs|
    ensures forall i :: 0 <= i < |xs| ==> MountOf(kind, xs[i]) == Some(MountsOf(kind, xs).value[i])
    decreases |xs|
  {
    hide MountOf, TargetOk, OtherOk, Overlaps;
    if xs != [] {
      var n := |xs| - 1;
      var before := xs[..n];
      MountsAreFormed(kind, before);
      var ms, m := MountsOf(kind, before).value, MountOf(kind, xs[n]).value;
      MountIsOk(kind, xs[n]);
      forall i | 0 <= i < n ensures MountOf(kind, xs[i]) == Some((ms + [m])[i]) {
        assert before[i] == xs[i];
      }
      var texts := TargetTexts(ms + [m]);
      assert texts[n] == AsText(m.target) && forall i :: 0 <= i < n ==> texts[i] == TargetTexts(ms)[i];
    }
  }

  /** And every such list is read. */
  lemma {:induction false} FormedIsRead(kind: Kind, xs: seq<Item>, ms: seq<MountText>)
    requires |xs| == |ms| && MountsFormed(kind, ms) && forall i :: 0 <= i < |xs| ==> MountOf(kind, xs[i]) == Some(ms[i])
    ensures MountsOf(kind, xs) == Some(ms)
    decreases |xs|
  {
    hide MountOf, TargetOk, OtherOk, Overlaps;
    if xs == [] {
      assert ms == [];
    } else {
      var n := |xs| - 1;
      assert forall i :: 0 <= i < n ==> xs[..n][i] == xs[i] && ms[..n][i] == ms[i];
      assert forall i :: 0 <= i < n ==> TargetTexts(ms[..n])[i] == TargetTexts(ms)[i];
      FormedIsRead(kind, xs[..n], ms[..n]);
      assert AsText(ms[n].target) == TargetTexts(ms)[n];
      assert Clear(ms[..n], ms[n]);
      assert ms == ms[..n] + [ms[n]];
    }
  }

  // ---- Every member ----

  /** What a value of the form is, whatever text it was read from. */
  ghost predicate Formed(form: Form, v: Value) {
    Spellable(v) &&
    match form
    case Numeric(least, most) => v.Number? && least <= v.number <= most
    case Boolean => v.Flag?
    case Always => v.Flag? && v.flag
    case Moment => v.Time? && -INT64_MAX - 1 <= v.seconds <= INT64_MAX
    case Argv => v.Strings? && TextsFit(form, v.strings) && (v.strings != [] ==> v.strings[0] != [])
    case Env => v.Strings? && TextsFit(form, v.strings)
    case MountList(kind) => v.Mounts? && MountsFormed(kind, v.mounts)
    case _ => v.Text? && |v.text| < form.cap && TextOk(form, v.text)
  }

  /** Texts that are read are UTF-8. */
  ghost predicate ItemIsUtf8(k: Shape, x: Item) {
    match k
    case Texts => x.Str? && IsUtf8(x.text)
    case Fields => x.Field? && IsUtf8(x.text)
    case Objects => x.Obj? && forall i :: 0 <= i < |x.fields| ==> x.fields[i].Field? && IsUtf8(x.fields[i].text)
  }

  ghost predicate AllAreUtf8(k: Shape, xs: seq<Item>) {
    forall i :: 0 <= i < |xs| ==> ItemIsUtf8(k, xs[i])
  }

  lemma ReadIsUtf8(t: seq<byte>, p: nat)
    requires Terminated(t) && p < |t| && BytesAt(t, p).Got?
    ensures IsUtf8(BytesAt(t, p).value)
  {
    hide StringAt, EncodeAll;
  }

  lemma {:induction false} ItemIsText(k: Shape, t: seq<byte>, p: nat)
    requires Terminated(t) && p < |t| && ItemAt(k, t, p).Got?
    ensures ItemIsUtf8(k, ItemAt(k, t, p).value)
    decreases |t| - p, 1
  {
    hide BytesAt, KeyAt, ListAt, IsUtf8;
    match k
    case Texts => ReadIsUtf8(t, p);
    case Fields => ReadIsUtf8(t, KeyAt(t, p).end);
    case Objects =>
      ListIsText(Fields, t, p);
      var fields := ListAt(Fields, t, p).value;
      forall i | 0 <= i < |fields| ensures fields[i].Field? && IsUtf8(fields[i].text) {
        assert ItemIsUtf8(Fields, fields[i]);
      }
  }

  lemma {:induction false} ItemsAreText(k: Shape, t: seq<byte>, p: nat)
    requires Terminated(t) && p < |t| && ItemsAt(k, t, p).Got?
    ensures AllAreUtf8(k, ItemsAt(k, t, p).value)
    decreases |t| - p, 2
  {
    hide ItemAt, ItemsAt, SkipWs, ItemIsUtf8;
    ItemsStep(k, t, p);
    ItemIsText(k, t, p);
    var q := SkipWs(t, ItemAt(k, t, p).end);
    if t[q] != Shut(k) {
      ItemsAreText(k, t, SkipWs(t, q + 1));
    }
  }

  lemma {:induction false} ListIsText(k: Shape, t: seq<byte>, p: nat)
    requires Terminated(t) && p < |t| && ListAt(k, t, p).Got?
    ensures AllAreUtf8(k, ListAt(k, t, p).value)
    decreases |t| - p, 0
  {
    hide ItemsAt, SkipWs, ItemIsUtf8;
    var q := SkipWs(t, p + 1);
    if t[q] != Shut(k) {
      ItemsAreText(k, t, q);
    }
  }

  lemma MountIsText(kind: Kind, x: Item)
    requires MountOf(kind, x).Some? && ItemIsUtf8(Objects, x)
    ensures IsUtf8(MountOf(kind, x).value.target) && IsUtf8(MountOf(kind, x).value.other)
  {
    hide IsTarget, IsOther, TakeAll, Made, IsUtf8;
    MountIsTwoFields(kind, x.fields);
  }

  lemma MountsAreText(kind: Kind, xs: seq<Item>)
    requires MountsOf(kind, xs).Some? && AllAreUtf8(Objects, xs)
    ensures Spellable(Mounts(MountsOf(kind, xs).value))
  {
    hide MountOf, MountsOf, MountsFormed, ItemIsUtf8, IsUtf8;
    MountsAreFormed(kind, xs);
    var ms := MountsOf(kind, xs).value;
    forall i | 0 <= i < |ms| ensures IsUtf8(ms[i].target) && IsUtf8(ms[i].other) {
      MountIsText(kind, xs[i]);
    }
  }

  lemma StringsAreText(xs: seq<Item>)
    requires AllAreUtf8(Texts, xs)
    ensures Spellable(Strings(TextsOf(xs)))
  {
    hide IsUtf8;
    forall i | 0 <= i < |xs| ensures IsUtf8(TextsOf(xs)[i]) {
      assert ItemIsUtf8(Texts, xs[i]);
    }
  }

  lemma ValueIsSpellable(form: Form, t: seq<byte>, p: nat)
    requires Terminated(t) && p < |t| && ValueOf(form, t, p).Got?
    ensures Spellable(ValueOf(form, t, p).value)
  {
    hide U64At, Word, ListAt, StringAt, EncodeAll, MountsOf, TextsFit, TextOk, TextsOf;
    if form.MountList? {
      ListIsText(Objects, t, p);
      MountsAreText(form.kind, ListAt(Objects, t, p).value);
    } else if form.Argv? || form.Env? {
      ListIsText(Texts, t, p);
      StringsAreText(ListAt(Texts, t, p).value);
    }
  }

  lemma ValueIsFormed(form: Form, t: seq<byte>, p: nat)
    requires Terminated(t) && p < |t| && ValueOf(form, t, p).Got?
    ensures Formed(form, ValueOf(form, t, p).value)
  {
    hide U64At, Word, ListAt, StringAt, EncodeAll, MountsOf, TextsFit, TextOk, MountsFormed, TextsOf, Spellable;
    ValueIsSpellable(form, t, p);
    if form.MountList? {
      MountsAreFormed(form.kind, ListAt(Objects, t, p).value);
    }
  }

  ghost predicate AllFormed(ms: seq<Member>) {
    forall i :: 0 <= i < |ms| ==> ms[i].id < |FORMS| && Formed(FORMS[ms[i].id], ms[i].value)
  }

  lemma MemberIsFormed(t: seq<byte>, p: nat)
    requires Terminated(t) && p < |t| && MemberAt(t, p).Got?
    ensures var m := MemberAt(t, p).value; m.id < |FORMS| && Formed(FORMS[m.id], m.value)
  {
    hide ValueOf, Formed, MemberAt, IndexIn, KeyAt, StringAt, Fitted;
    MemberIs(t, p);
    ValueIsFormed(FORMS[IdAt(t, p)], t, KeyAt(t, p).end);
  }

  lemma {:induction false} MembersAreFormed(t: seq<byte>, p: nat)
    requires Terminated(t) && p < |t| && MembersAt(t, p).Got?
    ensures AllFormed(MembersAt(t, p).value)
    decreases |t| - p
  {
    hide MembersAt, MemberAt, MoreAt, SkipWs, Formed, FORMS;
    OneMoreMember(t, p, []);
    NothingContinued(MembersAt(t, p));
    MemberIsFormed(t, p);
    var m, e := MemberAt(t, p).value, MemberAt(t, p).end;
    assert [] + [m] == [m];
    RestIs(t, e, [m]);
    var q := SkipWs(t, e);
    if t[q] == Ch(',') {
      MembersAreFormed(t, SkipWs(t, q + 1));
    }
  }

  /** Every member of a request that is accepted holds what its form asks for. */
  lemma AcceptedIsFormed(req: seq<byte>)
    requires Answer(req).Accepted?
    ensures var r := Answer(req);
            && r.kind < |SPECS| && r.members.Keys == SPECS[r.kind].members && Allowed(r.kind, r.members)
            && forall id :: id in r.members ==> id < |FORMS| && Formed(FORMS[id], r.members[id])
  {
    hide MembersAt, SkipWs, Judge, Formed, FORMS, SPECS, Allowed, AsCString;
    var t := AsCString(req);
    var ms := ObjectIn(t).value;
    MembersAreFormed(t, SkipWs(t, SkipWs(t, 0) + 1));
    JudgedByType(AsMap(ms), 0);
    AsMapHolds(ms);
    forall id | id in AsMap(ms) ensures id < |FORMS| && Formed(FORMS[id], AsMap(ms)[id]) {
      assert Member(id, AsMap(ms)[id]) in ms;
    }
  }

  // ---- RUN requests ----

  function AsTargets(texts: seq<string>, kind: Kind): (ts: seq<Target>)
    ensures |ts| == |texts| && forall i :: 0 <= i < |ts| ==> ts[i] == Target(kind, Split(texts[i]))
  {
    seq(|texts|, i requires 0 <= i < |texts| => Target(kind, Split(texts[i])))
  }

  lemma FormedTargets(kind: Kind, ms: seq<MountText>)
    requires MountsFormed(kind, ms)
    ensures AllEntryPaths(TargetTexts(ms)) && NoOverlaps(TargetTexts(ms)) && (kind == Bind ==> NoneOwned(TargetTexts(ms)))
  {
    hide EntryPath, NotOwned, OtherOk, Overlaps;
  }

  /** In every RUN request that is accepted the targets are an antichain of
      valid targets, none of them the agent's own: what the mount setup asks for. */
  lemma RunTargets(req: seq<byte>)
    requires Answer(req).Accepted? && Answer(req).kind == BUILD_RUN
    ensures var caches, binds := Caches(Answer(req).members), Binds(Answer(req).members);
            && |caches| <= MAX_BUILD_CACHE_MOUNTS && |binds| <= MAX_BUILD_CONTEXT_BINDS && NoneOwned(binds)
            && AllEntryPaths(caches + binds) && AllValid(Targets(caches, binds)) && Antichain(Targets(caches, binds))
            && Mountable(AsTargets(caches, Cache), AsTargets(binds, Bind))
  {
    hide Answer, Allowed, Formed, MountsFormed, AllEntryPaths, NoOverlaps, NoneOwned, Antichain, AllValid, AllOf, Split;
    var m := Answer(req).members;
    AcceptedIsFormed(req);
    BothMountMembers(m);
    RunIsAcross(m);
    var caches, binds := Caches(m), Binds(m);
    FormedTargets(Cache, MountsIn(m, CACHE_MOUNTS));
    FormedTargets(Bind, MountsIn(m, CONTEXT_BINDS));
    ListsApart(caches, binds);
    BothLists(caches, binds);
    assert Targets(caches, binds) == AsTargets(caches, Cache) + AsTargets(binds, Bind);
    EachOfKind(caches, Cache);
    EachOfKind(binds, Bind);
  }

  lemma EachOfKind(texts: seq<string>, kind: Kind)
    ensures AllOf(AsTargets(texts, kind), kind)
  {
    hide Split;
  }

  lemma RunIsAcross(m: map<nat, Value>)
    requires Allowed(BUILD_RUN, m)
    ensures NoneAcross(Caches(m), Binds(m))
  {
    hide NoneAcross, Says, TargetTexts;
  }

  lemma BothMountMembers(m: map<nat, Value>)
    requires m.Keys == SPECS[BUILD_RUN].members && forall id :: id in m ==> id < |FORMS| && Formed(FORMS[id], m[id])
    ensures MountsFormed(Cache, MountsIn(m, CACHE_MOUNTS)) && |MountsIn(m, CACHE_MOUNTS)| <= MAX_BUILD_CACHE_MOUNTS
    ensures MountsFormed(Bind, MountsIn(m, CONTEXT_BINDS)) && |MountsIn(m, CONTEXT_BINDS)| <= MAX_BUILD_CONTEXT_BINDS
  {
    MountForms();
    hide FORMS, SPECS, Formed;
    MountsAreIn(Cache, m[CACHE_MOUNTS]);
    MountsAreIn(Bind, m[CONTEXT_BINDS]);
  }

  lemma MountForms()
    ensures |FORMS| > CONTEXT_BINDS && FORMS[CACHE_MOUNTS] == MountList(Cache) && FORMS[CONTEXT_BINDS] == MountList(Bind)
    ensures |SPECS| > BUILD_RUN && CACHE_MOUNTS in SPECS[BUILD_RUN].members && CONTEXT_BINDS in SPECS[BUILD_RUN].members
  {
  }

  lemma MountsAreIn(kind: Kind, v: Value)
    requires Formed(MountList(kind), v)
    ensures v.Mounts? && MountsFormed(kind, v.mounts) && |v.mounts| <= Limit(kind)
  {
  }
}
