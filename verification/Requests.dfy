/** Requests: one JSON object with a known type and exactly that type's members
    (guest/minimal-initrd/request.c). */
module Requests {
  import opened Bytes
  import opened Utf8
  import opened Json
  import opened MemberNames
  import opened MemberValues
  import opened MemberReader
  import opened RequestRules

  const TYPE := 0
  const KEY_CAP := 32

  datatype Spec = Spec(name: string, members: set<nat>)

  const SPECS: seq<Spec> := [
    Spec("ready", {0}),
    Spec("start-v1", {0, 1, 2, 3, 4, 5, 6, 8, 9, 11, 12, 13, 14, 15, 16}),
    Spec("attach-v1", {0, 1, 17, 18, 6, 8, 9, 10, 12}),
    Spec("initial-output", {0}),
    Spec("copy-in-v1", {0, 1, 19}),
    Spec("copy-out-v1", {0, 1, 19}),
    Spec("spore-build-run-v4", {0, 1, 2, 20, 3, 4, 5, 21, 22, 6, 8, 9, 7, 11, 23, 24, 16}),
    Spec("spore-build-copy-v5", {0, 1, 25, 26, 27, 28, 29, 30, 31, 32, 33}),
    Spec("spore-build-workdir-v1", {0, 1, 5}),
    Spec("spore-rootfs-grow-v1", {0, 1}),
    Spec("fsfreeze-v1", {0, 1}),
    Spec("fsthaw-v1", {0, 1})]

  datatype Member = Member(id: nat, value: Value)

  /** A member whose name starts at `p`. */
  ghost function MemberAt(t: seq<byte>, p: nat): (r: At<Member>)
    requires Terminated(t) && p < |t|
    ensures r.Got? ==> p < r.end < |t|
  {
    match Fitted(StringAt(t, p), KEY_CAP)
    case No => No
    case Got(key, _) =>
      match KeyAt(t, p)
      case Bad => No
      case To(v) =>
        var id := IndexIn(key, MEMBER_NAMES);
        if id < 0 then No
        else
          match ValueOf(FORMS[id], t, v)
          case No => No
          case Got(value, e) => Got(Member(id, value), e)
  }

  /** The members from `p` to the closing brace, in the order of the text. */
  ghost function MembersAt(t: seq<byte>, p: nat): (r: At<seq<Member>>)
    requires Terminated(t) && p < |t|
    ensures r.Got? ==> p < r.end < |t|
    decreases |t| - p
  {
    match MemberAt(t, p)
    case No => No
    case Got(m, e) => Continued([m], MoreAt(t, e))
  }

  /** What follows a member: the closing brace, or a comma and more members. */
  ghost function MoreAt(t: seq<byte>, p: nat): (r: At<seq<Member>>)
    requires Terminated(t) && p < |t|
    ensures r.Got? ==> p < r.end < |t|
    decreases |t| - p
  {
    var q := SkipWs(t, p);
    if t[q] == Ch('}') then Got([], q + 1)
    else if t[q] != Ch(',') then No
    else MembersAt(t, SkipWs(t, q + 1))
  }

  /** Some members are read; the rest follow. */
  ghost function Continued(ms: seq<Member>, rest: At<seq<Member>>): At<seq<Member>> {
    match rest
    case No => No
    case Got(more, end) => Got(ms + more, end)
  }

  /** All of the request's members, with nothing but white space around the object. */
  ghost function ObjectIn(t: seq<byte>): (r: At<seq<Member>>)
    requires Terminated(t)
  {
    var p := SkipWs(t, 0);
    if t[p] != Ch('{') then No
    else
      match MembersAt(t, SkipWs(t, p + 1))
      case No => No
      case Got(ms, e) => if t[SkipWs(t, e)] == 0 then Got(ms, SkipWs(t, e)) else No
  }

  predicate Distinct(ms: seq<Member>) {
    forall i, j :: 0 <= i < j < |ms| ==> ms[i].id != ms[j].id
  }

  function AsMap(ms: seq<Member>): (m: map<nat, Value>) {
    if ms == [] then map[] else AsMap(ms[..|ms| - 1])[ms[|ms| - 1].id := ms[|ms| - 1].value]
  }

  datatype Outcome = Accepted(kind: nat, members: map<nat, Value>) | Rejected

  /** The checks once all members are read: a type the agent knows, exactly its
      members, and what else the kind asks for. */
  ghost function Judge(m: map<nat, Value>, k: nat): (r: Outcome)
    requires k <= |SPECS|
    decreases |SPECS| - k
  {
    if k == |SPECS| then Rejected
    else if !(TYPE in m && m[TYPE].Text? && Says(m[TYPE].text, SPECS[k].name)) then Judge(m, k + 1)
    else if m.Keys != SPECS[k].members || !Allowed(k, m) then Rejected
    else Accepted(k, m)
  }

  /** What a request with these members comes to. */
  ghost function Decide(ms: seq<Member>): Outcome {
    if Distinct(ms) then Judge(AsMap(ms), 0) else Rejected
  }

  // ---- Only the set of members matters ----

  lemma {:induction false} AsMapHolds(ms: seq<Member>)
    requires Distinct(ms)
    ensures forall i :: 0 <= i < |ms| ==> ms[i].id in AsMap(ms) && AsMap(ms)[ms[i].id] == ms[i].value
    ensures forall id :: id in AsMap(ms) ==> Member(id, AsMap(ms)[id]) in ms
    decreases |ms|
  {
    if ms != [] {
      var n := |ms| - 1;
      AsMapHolds(ms[..n]);
      forall i | 0 <= i < n ensures ms[..n][i] == ms[i] && ms[i].id != ms[n].id {
      }
    }
  }

  lemma {:induction false} CountedTwice(ms: seq<Member>, x: Member)
    requires multiset(ms)[x] >= 2
    ensures exists i, j :: 0 <= i < j < |ms| && ms[i] == x && ms[j] == x
    decreases |ms|
  {
    var n := |ms| - 1;
    assert ms == ms[..n] + [ms[n]];
    if multiset(ms[..n])[x] >= 2 {
      CountedTwice(ms[..n], x);
      var i, j :| 0 <= i < j < n && ms[..n][i] == x && ms[..n][j] == x;
      assert ms[i] == x && ms[j] == x;
    } else {
      assert x in multiset(ms[..n]);
      var i :| 0 <= i < n && ms[..n][i] == x;
      assert ms[i] == x && ms[n] == x;
    }
  }

  lemma TwiceIsCounted(ms: seq<Member>, i: nat, j: nat)
    requires i < j < |ms| && ms[i] == ms[j]
    ensures multiset(ms)[ms[i]] >= 2
  {
    assert ms == ms[..i] + [ms[i]] + ms[i + 1..];
    assert ms[i + 1..][j - i - 1] == ms[j];
  }

  lemma DistinctAnyOrder(a: seq<Member>, b: seq<Member>)
    requires multiset(a) == multiset(b) && Distinct(a)
    ensures Distinct(b)
  {
    forall i, j | 0 <= i < j < |b| ensures b[i].id != b[j].id {
      if b[i] == b[j] {
        TwiceIsCounted(b, i, j);
        CountedTwice(a, b[i]);
        assert false;
      }
      assert b[i] in multiset(b) && b[j] in multiset(b);
      var k :| 0 <= k < |a| && a[k] == b[i];
      var l :| 0 <= l < |a| && a[l] == b[j];
      assert k != l;
    }
  }

  lemma SameMembers(a: seq<Member>, b: seq<Member>)
    requires multiset(a) == multiset(b) && Distinct(a)
    ensures Distinct(b) && AsMap(a) == AsMap(b)
  {
    DistinctAnyOrder(a, b);
    AsMapHolds(a);
    AsMapHolds(b);
    forall id | id in AsMap(a) ensures id in AsMap(b) && AsMap(b)[id] == AsMap(a)[id] {
      var m := Member(id, AsMap(a)[id]);
      assert m in multiset(a) && m in multiset(b);
      var i :| 0 <= i < |b| && b[i] == m;
    }
    forall id | id in AsMap(b) ensures id in AsMap(a) {
      var m := Member(id, AsMap(b)[id]);
      assert m in multiset(b) && m in multiset(a);
      var i :| 0 <= i < |a| && a[i] == m;
    }
  }

  /** The order of the members in the text makes no difference. */
  lemma OrderIsNothing(a: seq<Member>, b: seq<Member>)
    requires multiset(a) == multiset(b)
    ensures Decide(a) == Decide(b)
  {
    hide Judge;
    if Distinct(a) {
      SameMembers(a, b);
    } else if Distinct(b) {
      SameMembers(b, a);
    }
  }

  lemma {:induction false} JudgedByType(m: map<nat, Value>, k: nat)
    requires k <= |SPECS| && Judge(m, k).Accepted?
    ensures var r := Judge(m, k);
            k <= r.kind < |SPECS| && r.members == m && m.Keys == SPECS[r.kind].members && Allowed(r.kind, m)
            && TYPE in m && m[TYPE].Text? && Says(m[TYPE].text, SPECS[r.kind].name)
    decreases |SPECS| - k
  {
    if !(TYPE in m && m[TYPE].Text? && Says(m[TYPE].text, SPECS[k].name)) {
      JudgedByType(m, k + 1);
    }
  }

  /** The request says it is of this type. */
  ghost predicate Typed(m: map<nat, Value>, k: nat)
    requires k < |SPECS|
  {
    TYPE in m && m[TYPE].Text? && Says(m[TYPE].text, SPECS[k].name)
  }

  lemma OneType(m: map<nat, Value>, j: nat, k: nat)
    requires j < |SPECS| && k < |SPECS| && Typed(m, j) && Typed(m, k)
    ensures j == k
  {
    var a, b := SPECS[j].name, SPECS[k].name;
    assert |a| == |b| && a[0] == b[0];
    TypesDiffer(j, k);
  }

  lemma TypesDiffer(j: nat, k: nat)
    requires j < |SPECS| && k < |SPECS| && |SPECS[j].name| == |SPECS[k].name| && SPECS[j].name[0] == SPECS[k].name[0]
    ensures j == k
  {
  }

  lemma {:induction false} JudgedFrom(m: map<nat, Value>, j: nat, k: nat)
    requires j <= |SPECS|
    ensures Judge(m, j) == Accepted(k, m) <==> j <= k < |SPECS| && Typed(m, k) && m.Keys == SPECS[k].members && Allowed(k, m)
    decreases |SPECS| - j
  {
    hide SPECS, Allowed, Says;
    if j < |SPECS| {
      if !Typed(m, j) {
        JudgedFrom(m, j + 1, k);
      } else if j <= k < |SPECS| && Typed(m, k) {
        OneType(m, j, k);
      }
    }
  }

  /** Members are accepted as a request of a kind exactly when they name its
      type, are just its members, and keep its rules. */
  lemma JudgedExactly(m: map<nat, Value>, k: nat)
    ensures Judge(m, 0) == Accepted(k, m) <==> k < |SPECS| && Typed(m, k) && m.Keys == SPECS[k].members && Allowed(k, m)
  {
    hide *;
    JudgedFrom(m, 0, k);
  }

  /** An accepted request has each member of its type once and no other. */
  lemma AcceptedIsExact(ms: seq<Member>)
    requires Decide(ms).Accepted?
    ensures var r := Decide(ms);
            && r.kind < |SPECS| && (forall id :: id in SPECS[r.kind].members <==> exists i :: 0 <= i < |ms| && ms[i].id == id)
            && Distinct(ms) && (forall i :: 0 <= i < |ms| ==> ms[i].id in r.members && r.members[ms[i].id] == ms[i].value)
  {
    hide Judge, SPECS;
    JudgedByType(AsMap(ms), 0);
    AsMapHolds(ms);
    var r := Decide(ms);
    forall id | id in SPECS[r.kind].members ensures exists i :: 0 <= i < |ms| && ms[i].id == id {
      assert Member(id, AsMap(ms)[id]) in ms;
    }
  }

  // ---- The reader ----

  lemma OneMoreMember(t: seq<byte>, p: nat, ms: seq<Member>)
    requires Terminated(t) && p < |t|
    ensures MemberAt(t, p).No? ==> Continued(ms, MembersAt(t, p)).No?
    ensures MemberAt(t, p).Got? ==>
              Continued(ms, MembersAt(t, p)) == Continued(ms + [MemberAt(t, p).value], MoreAt(t, MemberAt(t, p).end))
  {
    hide MemberAt, MoreAt;
    if MemberAt(t, p).Got? {
      var m, rest := MemberAt(t, p).value, MoreAt(t, MemberAt(t, p).end);
      if rest.Got? {
        assert ms + ([m] + rest.value) == ms + [m] + rest.value;
      }
    }
  }

  lemma RestIs(t: seq<byte>, p: nat, ms: seq<Member>)
    requires Terminated(t) && p < |t|
    ensures var q := SkipWs(t, p);
            Continued(ms, MoreAt(t, p)) ==
            if t[q] == Ch('}') then Got(ms, q + 1)
            else if t[q] != Ch(',') then No
            else Continued(ms, MembersAt(t, SkipWs(t, q + 1)))
  {
    hide MembersAt, SkipWs;
    assert ms + [] == ms;
  }

  /** A member met a second time stays one too many, whatever follows. */
  lemma Repeated(ms: seq<Member>, m: Member, more: seq<Member>)
    requires Distinct(ms) && m.id in AsMap(ms)
    ensures !Distinct(ms + [m] + more)
  {
    AsMapHolds(ms);
    var i :| 0 <= i < |ms| && ms[i].id == m.id;
    var all := ms + [m] + more;
    assert all[i] == ms[i] && all[|ms|] == m;
  }

  /** One member of the loop of `parse_request`: it is taken, or refused for its
      name, its value, or because it was there before. */
  method ReadMember(t: seq<byte>, p: nat, members: map<nat, Value>) returns (r: At<Member>)
    requires Terminated(t) && p < |t|
    ensures if MemberAt(t, p).No? || (IdAt(t, p) >= 0 && IdAt(t, p) in members) then r.No? else r == MemberAt(t, p) && r.value.id !in members
    ensures r.Got? ==> r.end < |t|
  {
    hide MemberAt, IndexIn, KeyAt, StringAt, Fitted;
    MemberIs(t, p);
    var key := ParseKey(t, p, KEY_CAP);
    if key.No? {
      return No;
    }
    var id := FindIn(key.value, MEMBER_NAMES);
    if id < 0 || id in members {
      return No;
    }
    FormsHaveRoom(id);
    var value := ReadValue(FORMS[id], t, key.end);
    return if value.No? then No else Got(Member(id, value.value), value.end);
  }

  /** The loop of `parse_request`: all members, each for the first time. */
  method ReadMembers(t: seq<byte>, start: nat) returns (r: At<map<nat, Value>>, ghost ms: seq<Member>)
    requires Terminated(t) && start < |t|
    ensures r.Got? ==> MembersAt(t, start) == Got(ms, r.end) && Distinct(ms) && r.value == AsMap(ms)
    ensures r.No? ==> MembersAt(t, start).No? || !Distinct(MembersAt(t, start).value)
  {
    hide MemberAt, MembersAt, MoreAt, SkipWs, IdAt, AsMap;
    var p := start;
    var members: map<nat, Value> := map[];
    ms := [];
    NoneIsDistinct();
    NothingContinued(MembersAt(t, start));
    while true
      invariant start <= p < |t| && Distinct(ms) && members == AsMap(ms)
      invariant MembersAt(t, start) == Continued(ms, MembersAt(t, p))
      decreases |t| - p
    {
      OneMoreMember(t, p, ms);
      var next := ReadMember(t, p, members);
      if next.No? {
        if IdAt(t, p) >= 0 && IdAt(t, p) in members {
          Doomed(t, p, ms);
        }
        return No, ms;
      }
      Extends(ms, next.value);
      members, ms := members[next.value.id := next.value.value], ms + [next.value];
      RestIs(t, next.end, ms);
      p := PassWs(t, next.end);
      if t[p] == Ch('}') {
        return Got(members, p + 1), ms;
      }
      if t[p] != Ch(',') {
        return No, ms;
      }
      p := PassWs(t, p + 1);
    }
  }

  /** The request as the C string the reader walks. */
  function AsCString(req: seq<byte>): (t: seq<byte>)
    requires 0 !in req
    ensures Terminated(t)
  {
    assert forall i :: 0 <= i < |req| ==> req[i] in req;
    req + [0]
  }

  /** What the bytes of a request come to: they hold no NUL, end in a newline,
      and are one object, whose members decide. */
  ghost function Answer(req: seq<byte>): Outcome {
    if req == [] || 0 in req || req[|req| - 1] != 10 then Rejected
    else
      match ObjectIn(AsCString(req))
      case No => Rejected
      case Got(ms, _) => Decide(ms)
  }

  /** `parse_request`: it accepts exactly the requests whose members come to an
      accepted one, and what it returns depends on nothing else. A request of
      another length than its C string is refused. */
  method ParseRequest(req: seq<byte>) returns (r: Outcome)
    ensures r == Answer(req)
    ensures req == [] || 0 in req ==> r.Rejected?
  {
    hide MembersAt, SkipWs, Judge, AsMap, Distinct;
    if req == [] || 0 in req || req[|req| - 1] != 10 {
      return Rejected;
    }
    var t := AsCString(req);
    var p := PassWs(t, 0);
    if t[p] != Ch('{') {
      return Rejected;
    }
    p := PassWs(t, p + 1);
    var members;
    ghost var ms;
    members, ms := ReadMembers(t, p);
    if members.No? {
      return Rejected;
    }
    p := PassWs(t, members.end);
    if t[p] != 0 {
      return Rejected;
    }
    r := JudgeMembers(members.value);
  }

  /** The loop over the known types, and `validate_request`. */
  method JudgeMembers(m: map<nat, Value>) returns (r: Outcome)
    ensures r == Judge(m, 0)
  {
    hide Allowed, SPECS;
    for k := 0 to |SPECS|
      invariant Judge(m, 0) == Judge(m, k)
    {
      if TYPE in m && m[TYPE].Text? && Says(m[TYPE].text, SPECS[k].name) {
        if m.Keys != SPECS[k].members {
          return Rejected;
        }
        var ok := Validate(k, m);
        return if ok then Accepted(k, m) else Rejected;
      }
    }
    return Rejected;
  }

  /** Every text member has a buffer. */
  lemma FormsHaveRoom(id: nat)
    requires id < |FORMS|
    ensures FORMS[id].AnyText? || FORMS[id].SomeText? || FORMS[id].RootedText? || FORMS[id].OneOf? ==> FORMS[id].cap > 0
  {
  }

  lemma NoneIsDistinct()
    ensures Distinct([]) && AsMap([]) == map[]
  {
  }

  lemma NothingContinued(rest: At<seq<Member>>)
    ensures Continued([], rest) == rest
  {
    if rest.Got? {
      assert [] + rest.value == rest.value;
    }
  }

  lemma Extends(ms: seq<Member>, m: Member)
    requires Distinct(ms) && m.id !in AsMap(ms)
    ensures Distinct(ms + [m]) && AsMap(ms + [m]) == AsMap(ms)[m.id := m.value]
  {
    AsMapHolds(ms);
    assert (ms + [m])[..|ms|] == ms;
  }

  /** The number of the member whose name is at `p`, or -1. */
  ghost function IdAt(t: seq<byte>, p: nat): int
    requires Terminated(t) && p < |t|
  {
    if KeyAt(t, p).Bad? || Fitted(StringAt(t, p), KEY_CAP).No? then -1
    else IndexIn(Fitted(StringAt(t, p), KEY_CAP).value, MEMBER_NAMES)
  }

  lemma MemberIs(t: seq<byte>, p: nat)
    requires Terminated(t) && p < |t|
    ensures IdAt(t, p) < 0 ==> MemberAt(t, p).No?
    ensures IdAt(t, p) >= 0 ==>
              var value := ValueOf(FORMS[IdAt(t, p)], t, KeyAt(t, p).end);
              if value.No? then MemberAt(t, p).No?
              else MemberAt(t, p) == Got(Member(IdAt(t, p), value.value), value.end) && value.end < |t|
  {
    hide IndexIn, KeyAt, StringAt, Fitted;
  }

  lemma Doomed(t: seq<byte>, p: nat, ms: seq<Member>)
    requires Terminated(t) && p < |t| && Distinct(ms) && IdAt(t, p) >= 0 && IdAt(t, p) in AsMap(ms)
    ensures var all := Continued(ms, MembersAt(t, p));
            all.Got? ==> !Distinct(all.value)
  {
    hide MemberAt, MembersAt, MoreAt, SkipWs, IdAt;
    MemberIs(t, p);
    OneMoreMember(t, p, ms);
    var all := Continued(ms, MembersAt(t, p));
    if all.Got? {
      var m := MemberAt(t, p).value;
      var more := all.value[|ms| + 1..];
      assert all.value == ms + [m] + more;
      Repeated(ms, m, more);
    }
  }
}
