/** Generation params: one JSON object of which the agent reads eleven members
    and skips any others (guest/minimal-initrd/request.c). */
module Generation {
  import opened Bytes
  import opened Utf8
  import opened Json
  import opened MemberNames
  import opened MemberValues
  import opened Requests

  const GENERATION_TEXT_MAX := 128
  const FIRST_TEXT := 7

  /** The members read: seven numbers and then four texts. */
  const NAMES: seq<string> := [
    "fork_index", "fork_count", "parallel_index", "parallel_count", "parent_generation", "generation", "resume_time_unix_ns",
    "vm_id", "fork_batch_id", "hostname", "resume_entropy_seed"]

  lemma ParamsDiffer(j: nat, k: nat)
    requires j < |NAMES| && k < |NAMES|
    requires var a, b := NAMES[j], NAMES[k];
             |a| == |b| && (|a| > 9 ==> a[9] == b[9])
    ensures j == k
  {
  }

  /** A key that says a member's name is that member's, and no other. */
  lemma ParamIsFound(key: seq<byte>, j: nat)
    requires j < |NAMES|
    ensures IndexIn(key, NAMES) == j <==> Says(key, NAMES[j])
  {
    hide NAMES, IndexIn;
    var i := IndexIn(key, NAMES);
    if Says(key, NAMES[j]) {
      ParamsDiffer(i, j);
    }
  }

  /** The value of a member the agent reads. */
  ghost function KnownAt(t: seq<byte>, p: nat, id: nat): (r: At<seq<Member>>)
    requires Terminated(t) && p < |t|
    ensures r.Got? ==> p < r.end < |t|
  {
    if id >= FIRST_TEXT then
      match Fitted(StringAt(t, p), GENERATION_TEXT_MAX)
      case No => No
      case Got(text, e) => Got([Member(id, Text(text))], e)
    else
      match U64At(t, p)
      case No => No
      case Got(n, e) => Got([Member(id, Number(n))], e)
  }

  /** A member at `p`: what the agent takes from it, which is nothing if it has no use for it. */
  ghost function EntryOf(t: seq<byte>, p: nat): (r: At<seq<Member>>)
    requires Terminated(t) && p < |t|
    ensures r.Got? ==> p < r.end < |t|
  {
    match KeyAt(t, p)
    case Bad => No
    case To(v) =>
      var id := IndexIn(EncodeAll(StringAt(t, p).value), NAMES);
      if id >= 0 then KnownAt(t, v, id)
      else
        match ValueAt(t, v)
        case Bad => No
        case To(e) => Got([], e)
  }

  /** What the agent takes from the members from `p` to the closing brace. */
  ghost function EntriesAt(t: seq<byte>, p: nat): (r: At<seq<Member>>)
    requires Terminated(t) && p < |t|
    ensures r.Got? ==> p < r.end < |t|
    decreases |t| - p
  {
    match EntryOf(t, p)
    case No => No
    case Got(ms, e) =>
      var q := SkipWs(t, e);
      if t[q] == Ch('}') then Got(ms, q + 1)
      else if t[q] != Ch(',') then No
      else
        match EntriesAt(t, SkipWs(t, q + 1))
        case No => No
        case Got(more, end) => Got(ms + more, end)
  }

  /** What the agent takes from a whole params text. */
  ghost function ParamsIn(t: seq<byte>): (r: At<seq<Member>>)
    requires Terminated(t)
  {
    var p := SkipWs(t, 0);
    if t[p] != Ch('{') then No
    else
      var q := SkipWs(t, p + 1);
      match if t[q] == Ch('}') then Got([], q + 1) else EntriesAt(t, q)
      case No => No
      case Got(ms, e) => if t[SkipWs(t, e)] == 0 then Got(ms, SkipWs(t, e)) else No
  }

  datatype Params = Params(members: map<nat, Value>) | Malformed

  /** What the members taken come to: each at most once. */
  ghost function Settle(ms: seq<Member>): Params {
    if Distinct(ms) then Params(AsMap(ms)) else Malformed
  }

  lemma OneMoreEntry(t: seq<byte>, p: nat, ms: seq<Member>)
    requires Terminated(t) && p < |t|
    ensures EntryOf(t, p).No? ==> Continued(ms, EntriesAt(t, p)).No?
    ensures EntryOf(t, p).Got? ==>
              var m, q := EntryOf(t, p).value, SkipWs(t, EntryOf(t, p).end);
              Continued(ms, EntriesAt(t, p)) ==
              if t[q] == Ch('}') then Got(ms + m, q + 1)
              else if t[q] != Ch(',') then No
              else Continued(ms + m, EntriesAt(t, SkipWs(t, q + 1)))
  {
    hide EntryOf, SkipWs;
    if EntryOf(t, p).Got? {
      var m, q := EntryOf(t, p).value, SkipWs(t, EntryOf(t, p).end);
      if t[q] == Ch(',') {
        var rest := EntriesAt(t, SkipWs(t, q + 1));
        if rest.Got? {
          assert ms + (m + rest.value) == ms + m + rest.value;
        }
      }
    }
  }

  /** A member met a second time is one too many, whatever follows. */
  lemma Spoiled(t: seq<byte>, p: nat, ms: seq<Member>)
    requires Terminated(t) && p < |t| && Distinct(ms)
    requires EntryOf(t, p).Got? ==> |EntryOf(t, p).value| == 1 && EntryOf(t, p).value[0].id in AsMap(ms)
    ensures var all := Continued(ms, EntriesAt(t, p));
            all.Got? ==> !Distinct(all.value)
  {
    hide EntryOf, EntriesAt, SkipWs;
    OneMoreEntry(t, p, ms);
    var all := Continued(ms, EntriesAt(t, p));
    if all.Got? {
      var m := EntryOf(t, p).value[0];
      var more := all.value[|ms| + 1..];
      assert all.value == ms + [m] + more;
      Repeated(ms, m, more);
    }
  }

  /** One member of the loop of `parse_generation_params`: it is taken, skipped,
      or refused, for its value or because it was there before. */
  method ReadEntry(t: seq<byte>, p: nat, members: map<nat, Value>) returns (r: At<map<nat, Value>>)
    requires Terminated(t) && p < |t| <= GEN_PARAMS_MAX
    ensures var entry := EntryOf(t, p);
            && (entry.No? ==> r.No?)
            && (entry.Got? && entry.value == [] ==> r == Got(members, entry.end))
            && (entry.Got? && entry.value != [] ==> |entry.value| == 1)
            && (entry.Got? && entry.value != [] ==>
                  var m := entry.value[0];
                  if m.id in members then r.No? else r == Got(members[m.id := m.value], entry.end))
  {
    hide StringAt, U64At, ValueAt, EncodeAll, IndexIn;
    if StringAt(t, p).Got? {
      FitsScratch(t, p, GEN_PARAMS_MAX);
    }
    var key := ParseKey(t, p, GEN_PARAMS_MAX);
    if key.No? {
      return No;
    }
    var id := FindIn(key.value, NAMES);
    if id < 0 {
      var v := SkipValue(t, key.end, GEN_PARAMS_MAX);
      return if v.Bad? then No else Got(members, v.end);
    }
    if id in members {
      return No;
    }
    if id >= FIRST_TEXT {
      var text := ParseString(t, key.end, GENERATION_TEXT_MAX);
      return if text.No? then No else Got(members[id := Text(text.value)], text.end);
    }
    var number := ParseU64(t, key.end);
    return if number.No? then No else Got(members[id := Number(number.value)], number.end);
  }

  /** The loop of `parse_generation_params`. */
  method ReadEntries(t: seq<byte>, start: nat) returns (r: At<map<nat, Value>>, ghost ms: seq<Member>)
    requires Terminated(t) && start < |t| <= GEN_PARAMS_MAX
    ensures r.Got? ==> EntriesAt(t, start) == Got(ms, r.end) && Distinct(ms) && r.value == AsMap(ms)
    ensures r.No? ==> EntriesAt(t, start).No? || !Distinct(EntriesAt(t, start).value)
  {
    hide EntryOf, EntriesAt, SkipWs, AsMap;
    var p := start;
    var members: map<nat, Value> := map[];
    ms := [];
    NoneIsDistinct();
    NothingContinued(EntriesAt(t, start));
    while true
      invariant start <= p < |t| && Distinct(ms) && members == AsMap(ms)
      invariant EntriesAt(t, start) == Continued(ms, EntriesAt(t, p))
      decreases |t| - p
    {
      OneMoreEntry(t, p, ms);
      ghost var entry := EntryOf(t, p);
      var next := ReadEntry(t, p, members);
      if next.No? {
        Spoiled(t, p, ms);
        return No, ms;
      }
      Taken(ms, entry.value);
      members, ms := next.value, ms + entry.value;
      p := PassWs(t, next.end);
      if t[p] == Ch('}') {
        return Got(members, p + 1), ms;
      }
      if t[p] != Ch(',') {
        return No, ms;
      }
      p := PassWs(t, p + 1);
    }
  }

  lemma Taken(ms: seq<Member>, entry: seq<Member>)
    requires Distinct(ms) && |entry| <= 1 && (entry != [] ==> entry[0].id !in AsMap(ms))
    ensures Distinct(ms + entry)
    ensures AsMap(ms + entry) == if entry == [] then AsMap(ms) else AsMap(ms)[entry[0].id := entry[0].value]
  {
    if entry == [] {
      assert ms + entry == ms;
    } else {
      assert entry == [entry[0]];
      Extends(ms, entry[0]);
    }
  }

  /** `parse_generation_params`. */
  method ParseParams(t: seq<byte>) returns (r: Params)
    requires Terminated(t)
    ensures var all := ParamsIn(t);
            r == if |t| > GEN_PARAMS_MAX || all.No? then Malformed else Settle(all.value)
  {
    hide EntriesAt, SkipWs, AsMap, Distinct;
    if |t| > GEN_PARAMS_MAX {
      return Malformed;
    }
    var p := PassWs(t, 0);
    if t[p] != Ch('{') {
      return Malformed;
    }
    p := PassWs(t, p + 1);
    var members: At<map<nat, Value>>;
    if t[p] == Ch('}') {
      NoneIsDistinct();
      members := Got(map[], p + 1);
    } else {
      ghost var ms;
      members, ms := ReadEntries(t, p);
      if members.No? {
        return Malformed;
      }
    }
    p := PassWs(t, members.end);
    return if t[p] == 0 then Params(members.value) else Malformed;
  }

  /** The order of the members makes no difference. */
  lemma ParamsAnyOrder(a: seq<Member>, b: seq<Member>)
    requires multiset(a) == multiset(b)
    ensures Settle(a) == Settle(b)
  {
    hide Judge;
    if Distinct(a) {
      SameMembers(a, b);
    } else if Distinct(b) {
      SameMembers(b, a);
    }
  }
}
