/** How the conformance harness splits its cases over shards
    (scripts/spore_build_conformance_contract.py). */
module Sharder {

  datatype Case = Case(name: string, transitions: nat)

  function Weight(c: Case): nat {
    1 + c.transitions
  }

  /** The order of strings by their characters. */
  predicate NameBefore(a: string, b: string) {
    if b == "" then false
    else if a == "" then true
    else a[0] < b[0] || (a[0] == b[0] && NameBefore(a[1..], b[1..]))
  }

  /** The sort key: heavier cases first, and cases of one weight by name. */
  predicate Before(a: Case, b: Case) {
    Weight(a) > Weight(b) || (Weight(a) == Weight(b) && NameBefore(a.name, b.name))
  }

  /** A stable sort by that key, one case at a time. */
  function Insert(c: Case, sorted: seq<Case>): (s: seq<Case>)
    ensures multiset(s) == multiset(sorted) + multiset{c}
  {
    if sorted == [] then [c]
    else
      var n := |sorted| - 1;
      assert sorted == sorted[..n] + [sorted[n]];
      if Before(c, sorted[n]) then Insert(c, sorted[..n]) + [sorted[n]] else sorted + [c]
  }

  function SortCases(cases: seq<Case>): (s: seq<Case>)
    ensures multiset(s) == multiset(cases) && |s| == |cases|
  {
    if cases == [] then []
    else
      var n := |cases| - 1;
      assert cases == cases[..n] + [cases[n]];
      var s := Insert(cases[n], SortCases(cases[..n]));
      assert |multiset(s)| == |multiset(cases)|;
      s
  }

  lemma {:induction false} NamesAreOrdered(a: string, b: string, c: string)
    ensures !(NameBefore(a, b) && NameBefore(b, a))
    ensures a != b ==> NameBefore(a, b) || NameBefore(b, a)
    ensures NameBefore(a, b) && NameBefore(b, c) ==> NameBefore(a, c)
    decreases |a| + |b| + |c|
  {
    if a != "" && b != "" {
      assert a == [a[0]] + a[1..] && b == [b[0]] + b[1..];
      NamesAreOrdered(a[1..], b[1..], if c == "" then "" else c[1..]);
    }
  }

  /** If `b` does not come before `a`, nor `c` before `b`, then `c` does not come before `a`. */
  lemma NotBefore(a: Case, b: Case, c: Case)
    requires !Before(b, a) && !Before(c, b)
    ensures !Before(c, a)
  {
    NamesAreOrdered(c.name, a.name, b.name);
    NamesAreOrdered(a.name, b.name, c.name);
    NamesAreOrdered(b.name, c.name, a.name);
    NamesAreOrdered(c.name, b.name, a.name);
    NamesAreOrdered(b.name, a.name, c.name);
  }

  predicate InKeyOrder(s: seq<Case>) {
    forall i, j :: 0 <= i < j < |s| ==> !Before(s[j], s[i])
  }

  lemma {:induction false} InsertInOrder(c: Case, sorted: seq<Case>)
    requires InKeyOrder(sorted)
    ensures InKeyOrder(Insert(c, sorted))
    decreases |sorted|
  {
    hide Before;
    if sorted != [] {
      var n := |sorted| - 1;
      var last := sorted[n];
      if Before(c, last) {
        InsertInOrder(c, sorted[..n]);
        var s := Insert(c, sorted[..n]);
        forall i | 0 <= i < |s| ensures !Before(last, s[i]) {
          assert s[i] in multiset(s);
          if s[i] == c {
            NotAfterItself(c, last);
          } else {
            assert s[i] in multiset(sorted[..n]);
            var k :| 0 <= k < n && sorted[..n][k] == s[i];
            assert sorted[k] == s[i];
          }
        }
      } else {
        forall i | 0 <= i < |sorted| ensures !Before(c, sorted[i]) {
          if i < n {
            NotBefore(sorted[i], last, c);
          }
        }
      }
    }
  }

  lemma NotAfterItself(c: Case, d: Case)
    requires Before(c, d)
    ensures !Before(d, c)
  {
    NamesAreOrdered(c.name, d.name, "");
  }

  lemma {:induction false} Sorts(cases: seq<Case>)
    ensures InKeyOrder(SortCases(cases))
    decreases |cases|
  {
    if cases != [] {
      Sorts(cases[..|cases| - 1]);
      InsertInOrder(cases[|cases| - 1], SortCases(cases[..|cases| - 1]));
    }
  }

  /** The names are in the order of their characters: the first is the start of
      the other, or smaller where they first differ. */
  predicate InNameOrder(a: string, b: string) {
    a <= b || exists k :: 0 <= k < |a| && k < |b| && a[..k] == b[..k] && a[k] < b[k]
  }

  lemma {:induction false} NameOrder(a: string, b: string)
    requires !NameBefore(b, a)
    ensures InNameOrder(a, b)
    decreases |a|
  {
    if a != "" {
      assert b != "";
      if a[0] < b[0] {
        assert a[..0] == b[..0];
      } else {
        NameOrder(a[1..], b[1..]);
        if !(a[1..] <= b[1..]) {
          var k :| 0 <= k < |a[1..]| && k < |b[1..]| && a[1..][..k] == b[1..][..k] && a[1..][k] < b[1..][k];
          assert a[..k + 1] == [a[0]] + a[1..][..k] && b[..k + 1] == [b[0]] + b[1..][..k];
          assert a[k + 1] < b[k + 1];
        }
      }
    }
  }

  /** The cases are placed by falling number of transitions, and by name among cases with the same number. */
  lemma SortsByKey(cases: seq<Case>)
    ensures var s := SortCases(cases);
            && multiset(s) == multiset(cases)
            && forall i, j :: 0 <= i < j < |s| ==>
                 s[i].transitions > s[j].transitions || (s[i].transitions == s[j].transitions && InNameOrder(s[i].name, s[j].name))
  {
    hide SortCases, InNameOrder, NameBefore;
    Sorts(cases);
    var s := SortCases(cases);
    forall i, j | 0 <= i < j < |s|
      ensures s[i].transitions > s[j].transitions || (s[i].transitions == s[j].transitions && InNameOrder(s[i].name, s[j].name))
    {
      if !NameBefore(s[j].name, s[i].name) {
        NameOrder(s[i].name, s[j].name);
      }
    }
  }

  function Load(shard: seq<Case>): nat {
    if shard == [] then 0 else Load(shard[..|shard| - 1]) + Weight(shard[|shard| - 1])
  }

  /** The transitions of all of a shard's cases. */
  function Transitions(shard: seq<Case>): nat {
    if shard == [] then 0 else Transitions(shard[..|shard| - 1]) + shard[|shard| - 1].transitions
  }

  /** A load counts each case once and each of its transitions once. */
  lemma {:induction false} LoadCounts(shard: seq<Case>)
    ensures Load(shard) == |shard| + Transitions(shard)
    decreases |shard|
  {
    if shard != [] {
      LoadCounts(shard[..|shard| - 1]);
    }
  }

  /** The shard with the least load, of those the one with the fewest cases, of those the first. */
  predicate Better(shards: seq<seq<Case>>, a: nat, b: nat)
    requires a < |shards| && b < |shards|
  {
    Load(shards[a]) < Load(shards[b]) ||
    (Load(shards[a]) == Load(shards[b]) && (|shards[a]| < |shards[b]| || (|shards[a]| == |shards[b]| && a <= b)))
  }

  function Best(shards: seq<seq<Case>>, n: nat): (k: nat)
    requires 0 < n <= |shards|
    ensures k < n && forall i :: 0 <= i < n ==> Better(shards, k, i)
  {
    if n == 1 then 0
    else
      var k := Best(shards, n - 1);
      Overtakes(shards, k, n - 1);
      if Better(shards, k, n - 1) then k else n - 1
  }

  lemma Overtakes(shards: seq<seq<Case>>, k: nat, n: nat)
    requires k < n < |shards| && forall i :: 0 <= i < n ==> Better(shards, k, i)
    ensures !Better(shards, k, n) ==> forall i :: 0 <= i <= n ==> Better(shards, n, i)
  {
    forall i | 0 <= i <= n && !Better(shards, k, n) ensures Better(shards, n, i) {
      assert i < n ==> Better(shards, k, i);
    }
  }

  /** The shards once the cases have been placed in order. */
  function Place(order: seq<Case>, m: nat): (shards: seq<seq<Case>>)
    requires m > 0
    ensures |shards| == m
  {
    if order == [] then seq(m, i => [])
    else
      var n := |order| - 1;
      var shards := Place(order[..n], m);
      var k := Best(shards, m);
      shards[k := shards[k] + [order[n]]]
  }

  // ---- Loads ----

  lemma LoadMore(shard: seq<Case>, c: Case)
    ensures Load(shard + [c]) == Load(shard) + Weight(c)
  {
    assert (shard + [c])[..|shard|] == shard;
  }

  /** No two shards differ by more than the heaviest case. */
  lemma {:induction false} Balanced(order: seq<Case>, m: nat, w: nat, a: nat, b: nat)
    requires m > 0 && a < m && b < m && forall i :: 0 <= i < |order| ==> Weight(order[i]) <= w
    ensures Load(Place(order, m)[a]) <= Load(Place(order, m)[b]) + w
    decreases |order|
  {
    if order != [] {
      var n := |order| - 1;
      var shards := Place(order[..n], m);
      var k := Best(shards, m);
      Balanced(order[..n], m, w, a, b);
      LoadMore(shards[k], order[n]);
      assert Better(shards, k, b) && Better(shards, k, a);
    }
  }

  function TotalLoad(shards: seq<seq<Case>>): nat {
    if shards == [] then 0 else TotalLoad(shards[..|shards| - 1]) + Load(shards[|shards| - 1])
  }

  lemma {:induction false} TotalAfter(shards: seq<seq<Case>>, k: nat, shard: seq<Case>)
    requires k < |shards|
    ensures TotalLoad(shards[k := shard]) + Load(shards[k]) == TotalLoad(shards) + Load(shard)
    decreases |shards|
  {
    var n := |shards| - 1;
    if k == n {
      assert shards[k := shard][..n] == shards[..n];
    } else {
      assert shards[k := shard][..n] == shards[..n][k := shard];
      TotalAfter(shards[..n], k, shard);
    }
  }

  lemma {:induction false} EmptyTotal(shards: seq<seq<Case>>)
    requires forall i :: 0 <= i < |shards| ==> shards[i] == []
    ensures TotalLoad(shards) == 0
    decreases |shards|
  {
    if shards != [] {
      EmptyTotal(shards[..|shards| - 1]);
    }
  }

  /** Nothing is lost or counted twice: the shards carry the weight of all cases. */
  lemma {:induction false} TotalPlaced(order: seq<Case>, m: nat)
    requires m > 0
    ensures TotalLoad(Place(order, m)) == Load(order)
    decreases |order|
  {
    if order == [] {
      EmptyTotal(Place(order, m));
    } else {
      var n := |order| - 1;
      var shards := Place(order[..n], m);
      var k := Best(shards, m);
      TotalPlaced(order[..n], m);
      LoadMore(shards[k], order[n]);
      TotalAfter(shards, k, shards[k] + [order[n]]);
    }
  }

  /** One shard has the load `top` and the others are within `w` of it. */
  lemma {:induction false} SumsUp(shards: seq<seq<Case>>, a: nat, top: nat, w: nat)
    requires a < |shards| && Load(shards[a]) == top && forall i :: 0 <= i < |shards| ==> top <= Load(shards[i]) + w
    ensures |shards| * top <= TotalLoad(shards) + (|shards| - 1) * w
    decreases |shards|
  {
    hide Load;
    var n := |shards| - 1;
    if a == n {
      SumsUpAll(shards[..n], top, w);
      OneMore(n, top, w);
    } else {
      SumsUp(shards[..n], a, top, w);
      OneMore(n, top, w);
      OneMore(n - 1, top, w);
    }
  }

  lemma OneMore(n: nat, top: nat, w: nat)
    ensures (n + 1) * top == n * top + top && (n + 1) * w == n * w + w
  {
  }

  lemma {:induction false} SumsUpAll(shards: seq<seq<Case>>, top: nat, w: nat)
    requires forall i :: 0 <= i < |shards| ==> top <= Load(shards[i]) + w
    ensures |shards| * top <= TotalLoad(shards) + |shards| * w
    decreases |shards|
  {
    hide Load;
    if shards != [] {
      SumsUpAll(shards[..|shards| - 1], top, w);
      OneMore(|shards| - 1, top, w);
    }
  }

  /** The bound of greedy scheduling: `m` times any shard's load is at most the
      whole load and `m - 1` times the heaviest case. */
  lemma LoadBound(order: seq<Case>, m: nat, w: nat, a: nat)
    requires a < m && forall i :: 0 <= i < |order| ==> Weight(order[i]) <= w
    ensures m * Load(Place(order, m)[a]) <= Load(order) + (m - 1) * w
  {
    var shards := Place(order, m);
    forall b | 0 <= b < m ensures Load(shards[a]) <= Load(shards[b]) + w {
      Balanced(order, m, w, a, b);
    }
    SumsUp(shards, a, Load(shards[a]), w);
    TotalPlaced(order, m);
  }

  /** Cases go out heaviest first, so no shard is ahead of another by more than
      the lightest of its own cases. */
  lemma {:induction false} HeaviestFirst(order: seq<Case>, m: nat, a: nat, b: nat, c: Case)
    requires InKeyOrder(order) && a < m && b < m && c in Place(order, m)[a]
    ensures c in order && Load(Place(order, m)[a]) <= Load(Place(order, m)[b]) + Weight(c)
    decreases |order|
  {
    hide Load;
    var n := |order| - 1;
    var shards, last := Place(order[..n], m), order[n];
    var k := Best(shards, m);
    if c in shards[a] {
      HeaviestFirst(order[..n], m, a, b, c);
      var i :| 0 <= i < n && order[..n][i] == c;
      assert order[i] == c && !Before(last, c);
    }
    LoadMore(shards[k], last);
    assert Better(shards, k, b) && Better(shards, k, a);
  }

  // ---- Which shards are empty ----

  lemma LoadOfSome(shard: seq<Case>)
    ensures Load(shard) >= |shard|
  {
  }

  /** The first cases go to the first shards, one each, until none is empty. */
  lemma {:induction false} EmptyShards(order: seq<Case>, m: nat, k: nat)
    requires k < m
    ensures Place(order, m)[k] == [] <==> k >= |order|
    decreases |order|
  {
    if order != [] {
      var n := |order| - 1;
      var shards := Place(order[..n], m);
      var best := Best(shards, m);
      EmptyShards(order[..n], m, k);
      EmptyShards(order[..n], m, best);
      if n < m {
        EmptyShards(order[..n], m, n);
        LoadOfSome(shards[best]);
        assert Better(shards, best, n);
      }
    }
  }

  // ---- Every case in one shard ----

  function AllOf(shards: seq<seq<Case>>): multiset<Case> {
    if shards == [] then multiset{} else AllOf(shards[..|shards| - 1]) + multiset(shards[|shards| - 1])
  }

  lemma {:induction false} AllAfter(shards: seq<seq<Case>>, k: nat, c: Case)
    requires k < |shards|
    ensures AllOf(shards[k := shards[k] + [c]]) == AllOf(shards) + multiset{c}
    decreases |shards|
  {
    var n := |shards| - 1;
    if k == n {
      assert shards[k := shards[k] + [c]][..n] == shards[..n];
    } else {
      assert shards[k := shards[k] + [c]][..n] == shards[..n][k := shards[k] + [c]];
      AllAfter(shards[..n], k, c);
    }
  }

  lemma {:induction false} AllOfNone(shards: seq<seq<Case>>)
    requires forall i :: 0 <= i < |shards| ==> shards[i] == []
    ensures AllOf(shards) == multiset{}
    decreases |shards|
  {
    if shards != [] {
      AllOfNone(shards[..|shards| - 1]);
    }
  }

  lemma {:induction false} AllPlaced(order: seq<Case>, m: nat)
    requires m > 0
    ensures AllOf(Place(order, m)) == multiset(order)
    decreases |order|
  {
    if order == [] {
      AllOfNone(Place(order, m));
    } else {
      var n := |order| - 1;
      var shards := Place(order[..n], m);
      AllPlaced(order[..n], m);
      AllAfter(shards, Best(shards, m), order[n]);
      assert order == order[..n] + [order[n]];
    }
  }

  lemma {:induction false} InSome(shards: seq<seq<Case>>, c: Case)
    ensures c in AllOf(shards) <==> exists k :: 0 <= k < |shards| && c in shards[k]
    decreases |shards|
  {
    if shards != [] {
      var n := |shards| - 1;
      InSome(shards[..n], c);
      if c in AllOf(shards[..n]) {
        var k :| 0 <= k < n && c in shards[..n][k];
        assert c in shards[k];
      }
      if exists k :: 0 <= k < |shards| && c in shards[k] {
        var k :| 0 <= k < |shards| && c in shards[k];
        assert k < n ==> shards[..n][k] == shards[k];
      }
    }
  }

  lemma {:induction false} InTwo(shards: seq<seq<Case>>, c: Case, a: nat, b: nat)
    requires a < b < |shards| && c in shards[a] && c in shards[b]
    ensures AllOf(shards)[c] >= 2
    decreases |shards|
  {
    var n := |shards| - 1;
    if b == n {
      assert c in shards[..n][a];
      InSome(shards[..n], c);
    } else {
      assert shards[..n][a] == shards[a] && shards[..n][b] == shards[b];
      InTwo(shards[..n], c, a, b);
    }
  }

  function Names(shard: seq<Case>): set<string> {
    set c | c in shard :: c.name
  }

  /** The cases with one of these names, in their own order. */
  function Keep(cases: seq<Case>, names: set<string>): seq<Case> {
    if cases == [] then []
    else
      var before, last := Keep(cases[..|cases| - 1], names), cases[|cases| - 1];
      if last.name in names then before + [last] else before
  }

  /** What shard `k` of `m` runs. */
  function Shard(cases: seq<Case>, m: nat, k: nat): seq<Case>
    requires k < m
  {
    Keep(cases, Names(Place(SortCases(cases), m)[k]))
  }

  /** Cases are directories, so no two have one name. */
  predicate UniqueNames(cases: seq<Case>) {
    forall i, j :: 0 <= i < j < |cases| ==> cases[i].name != cases[j].name
  }

  lemma {:induction false} KeepCounts(cases: seq<Case>, names: set<string>, c: Case)
    ensures multiset(Keep(cases, names))[c] == if c.name in names then multiset(cases)[c] else 0
    decreases |cases|
  {
    if cases != [] {
      var n := |cases| - 1;
      KeepCounts(cases[..n], names, c);
      assert cases == cases[..n] + [cases[n]];
    }
  }

  lemma {:induction false} CountedOnce(cases: seq<Case>, c: Case)
    requires UniqueNames(cases)
    ensures multiset(cases)[c] <= 1
    decreases |cases|
  {
    if cases != [] {
      var n := |cases| - 1;
      CountedOnce(cases[..n], c);
      assert cases == cases[..n] + [cases[n]];
      assert cases[n] !in cases[..n];
    }
  }

  lemma NamedOnce(cases: seq<Case>, c: Case, d: Case)
    requires UniqueNames(cases) && c in cases && d in cases && c.name == d.name
    ensures c == d
  {
    var i :| 0 <= i < |cases| && cases[i] == c;
    var j :| 0 <= j < |cases| && cases[j] == d;
  }

  lemma {:induction false} PartOfAll(shards: seq<seq<Case>>, k: nat, c: Case)
    requires k < |shards|
    ensures multiset(shards[k])[c] <= AllOf(shards)[c]
    decreases |shards|
  {
    var n := |shards| - 1;
    if k < n {
      PartOfAll(shards[..n], k, c);
    }
  }

  /** What a shard runs is the cases that were placed in it, each once. */
  lemma ShardIsPlaced(cases: seq<Case>, m: nat, k: nat)
    requires UniqueNames(cases) && k < m
    ensures multiset(Shard(cases, m, k)) == multiset(Place(SortCases(cases), m)[k])
  {
    var shards := Place(SortCases(cases), m);
    var names := Names(shards[k]);
    AllPlaced(SortCases(cases), m);
    forall c: Case ensures multiset(Shard(cases, m, k))[c] == multiset(shards[k])[c] {
      KeepCounts(cases, names, c);
      CountedOnce(cases, c);
      PartOfAll(shards, k, c);
      if c.name in names {
        var d: Case :| d in shards[k] && d.name == c.name;
        PartOfAll(shards, k, d);
        assert d in multiset(cases);
        if c in multiset(cases) {
          NamedOnce(cases, c, d);
        }
      }
    }
  }

  /** Every case runs in exactly one shard, and a shard runs nothing else. */
  lemma Partition(cases: seq<Case>, m: nat, c: Case)
    requires UniqueNames(cases) && m > 0
    ensures c in cases <==> exists k :: 0 <= k < m && c in Shard(cases, m, k)
    ensures forall k, l :: 0 <= k < m && 0 <= l < m && c in Shard(cases, m, k) && c in Shard(cases, m, l) ==> k == l
  {
    var shards := Place(SortCases(cases), m);
    AllPlaced(SortCases(cases), m);
    InSome(shards, c);
    CountedOnce(cases, c);
    forall k | 0 <= k < m ensures c in Shard(cases, m, k) <==> c in shards[k] {
      ShardIsPlaced(cases, m, k);
      assert c in multiset(Shard(cases, m, k)) <==> c in multiset(shards[k]);
    }
    assert c in cases <==> c in multiset(cases);
    forall k, l | 0 <= k < l < m && c in shards[k] && c in shards[l] ensures false {
      InTwo(shards, c, k, l);
    }
  }

  // ---- Loads of what is run ----

  lemma {:induction false} LoadWithout(s: seq<Case>, i: nat)
    requires i < |s|
    ensures Load(s) == Load(s[..i] + s[i + 1..]) + Weight(s[i])
    decreases |s|
  {
    var n := |s| - 1;
    if i == n {
      assert s[..i] + s[i + 1..] == s[..n];
    } else {
      LoadWithout(s[..n], i);
      var without := s[..i] + s[i + 1..];
      assert without == s[..n][..i] + s[..n][i + 1..] + [s[n]];
      LoadMore(s[..n][..i] + s[..n][i + 1..], s[n]);
    }
  }

  lemma TakenOut(b: seq<Case>, i: nat)
    requires i < |b|
    ensures multiset(b[..i] + b[i + 1..]) == multiset(b) - multiset{b[i]}
  {
    assert b == b[..i] + [b[i]] + b[i + 1..];
  }

  lemma {:induction false} LoadAnyOrder(a: seq<Case>, b: seq<Case>)
    requires multiset(a) == multiset(b)
    ensures Load(a) == Load(b)
    decreases |a|
  {
    if a == [] {
      assert |multiset(a)| == |multiset(b)|;
    } else {
      var n := |a| - 1;
      assert a == a[..n] + [a[n]];
      assert a[n] in multiset(b);
      var i :| 0 <= i < |b| && b[i] == a[n];
      var rest := b[..i] + b[i + 1..];
      TakenOut(b, i);
      assert multiset(a[..n]) == multiset(a) - multiset{a[n]};
      LoadAnyOrder(a[..n], rest);
      LoadWithout(b, i);
    }
  }

  /** The loads that run: no two shards differ by more than the heaviest case,
      and none is past its share by more than that case's part. */
  lemma ShardLoads(cases: seq<Case>, m: nat, w: nat, a: nat, b: nat)
    requires UniqueNames(cases) && a < m && b < m && forall c :: c in cases ==> 1 + c.transitions <= w
    ensures Load(Shard(cases, m, a)) <= Load(Shard(cases, m, b)) + w
    ensures m * Load(Shard(cases, m, a)) <= Load(cases) + (m - 1) * w
  {
    var order := SortCases(cases);
    forall i | 0 <= i < |order| ensures Weight(order[i]) <= w {
      assert order[i] in multiset(order) && order[i] in multiset(cases);
    }
    Balanced(order, m, w, a, b);
    LoadBound(order, m, w, a);
    ShardIsPlaced(cases, m, a);
    ShardIsPlaced(cases, m, b);
    LoadAnyOrder(Shard(cases, m, a), Place(order, m)[a]);
    LoadAnyOrder(Shard(cases, m, b), Place(order, m)[b]);
    LoadAnyOrder(cases, order);
  }

  /** What heaviest first is for: a shard is ahead of any other by no more than
      any one of its own cases, and past its share by no more than that case's part. */
  lemma LightestCaseBounds(cases: seq<Case>, m: nat, a: nat, b: nat, c: Case)
    requires UniqueNames(cases) && a < m && b < m && c in Shard(cases, m, a)
    ensures Load(Shard(cases, m, a)) <= Load(Shard(cases, m, b)) + 1 + c.transitions
    ensures m * Load(Shard(cases, m, a)) <= Load(cases) + (m - 1) * (1 + c.transitions)
  {
    hide Load, Shard, Place, SortCases;
    var order := SortCases(cases);
    var shards := Place(order, m);
    Sorts(cases);
    ShardIsPlaced(cases, m, a);
    ShardIsPlaced(cases, m, b);
    assert c in multiset(Shard(cases, m, a)) && c in multiset(shards[a]);
    forall i | 0 <= i < m ensures Load(shards[a]) <= Load(shards[i]) + Weight(c) {
      HeaviestFirst(order, m, a, i, c);
    }
    SumsUp(shards, a, Load(shards[a]), Weight(c));
    TotalPlaced(order, m);
    LoadAnyOrder(Shard(cases, m, a), shards[a]);
    LoadAnyOrder(Shard(cases, m, b), shards[b]);
    LoadAnyOrder(cases, order);
  }

  /** A shard has nothing to run exactly when there are no more cases than its number. */
  lemma EmptyShard(cases: seq<Case>, m: nat, k: nat)
    requires UniqueNames(cases) && k < m
    ensures Shard(cases, m, k) == [] <==> k >= |cases|
  {
    ShardIsPlaced(cases, m, k);
    EmptyShards(SortCases(cases), m, k);
    assert |multiset(Shard(cases, m, k))| == |multiset(Place(SortCases(cases), m)[k])|;
  }

  // ---- The harness's own loops ----

  datatype Option = None | Some(value: int)
  datatype Selection = Selected(cases: seq<Case>) | HarnessError

  /** `shard_cases`: an error exactly for options that do not make sense and for a shard without cases. */
  method ShardCases(cases: seq<Case>, index: Option, count: Option) returns (r: Selection)
    requires UniqueNames(cases)
    ensures index.None? && count.None? ==> r == Selected(cases)
    ensures index.None? != count.None? ==> r == HarnessError
    ensures index.Some? && count.Some? ==>
              if count.value < 1 || index.value < 0 || index.value >= count.value || index.value >= |cases| then r == HarnessError
              else r == Selected(Shard(cases, count.value, index.value))
  {
    if index.None? != count.None? {
      return HarnessError;
    }
    if index.None? {
      return Selected(cases);
    }
    if count.value < 1 || index.value < 0 || index.value >= count.value {
      return HarnessError;
    }
    var m := count.value;
    var order := SortCases(cases);
    var shards: seq<seq<Case>> := seq(m, i => []);
    var weights := seq(m, i => 0);
    for j := 0 to |order|
      invariant shards == Place(order[..j], m) && |weights| == m
      invariant forall i :: 0 <= i < m ==> weights[i] == Load(shards[i])
    {
      var target := Lightest(shards, weights);
      LoadMore(shards[target], order[j]);
      assert order[..j + 1][..j] == order[..j];
      shards := shards[target := shards[target] + [order[j]]];
      weights := weights[target := weights[target] + 1 + order[j].transitions];
    }
    assert order[..|order|] == order;
    var selected := KeepNamed(cases, Names(shards[index.value]));
    EmptyShard(cases, m, index.value);
    if selected == [] {
      return HarnessError;
    }
    return Selected(selected);
  }

  /** The `min` over the shards by load, number of cases and index. */
  method Lightest(shards: seq<seq<Case>>, weights: seq<nat>) returns (k: nat)
    requires shards != [] && |weights| == |shards| && forall i :: 0 <= i < |shards| ==> weights[i] == Load(shards[i])
    ensures k == Best(shards, |shards|)
  {
    k := 0;
    for i := 1 to |shards|
      invariant k == Best(shards, i)
    {
      if !(weights[k] < weights[i] || (weights[k] == weights[i] && |shards[k]| <= |shards[i]|)) {
        k := i;
      }
    }
  }

  method KeepNamed(cases: seq<Case>, names: set<string>) returns (selected: seq<Case>)
    ensures selected == Keep(cases, names)
  {
    selected := [];
    for i := 0 to |cases|
      invariant selected == Keep(cases[..i], names)
    {
      assert cases[..i + 1][..i] == cases[..i];
      if cases[i].name in names {
        selected := selected + [cases[i]];
      }
    }
    assert cases[..|cases|] == cases;
  }
}
