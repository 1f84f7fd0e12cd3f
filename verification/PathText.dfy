/** The agent keeps paths in text buffers; this module relates the text to
    component paths. */
module PathText {
  import opened Tree

  /** A component as it occurs between slashes. */
  predicate IsComponent(n: Name) {
    n != "" && '/' !in n
  }

  predicate AllComponents(p: Path) {
    forall i :: 0 <= i < |p| ==> IsComponent(p[i])
  }

  /** The first slash of `s`, or its length. */
  function SlashAt(s: string): (k: nat)
    ensures k <= |s|
    ensures forall i :: 0 <= i < k ==> s[i] != '/'
    ensures k < |s| ==> s[k] == '/'
  {
    if s == "" || s[0] == '/' then 0 else 1 + SlashAt(s[1..])
  }

  /** The components of `s`; runs of slashes count as one. */
  function Split(s: string): (p: Path)
    ensures AllComponents(p)
    decreases |s|
  {
    if s == "" then []
    else if s[0] == '/' then Split(s[1..])
    else [s[..SlashAt(s)]] + Split(s[SlashAt(s)..])
  }

  function Join(p: Path): string {
    if p == [] then "" else if |p| == 1 then p[0] else Join(Parent(p)) + "/" + p[|p| - 1]
  }

  lemma SlashAtIs(s: string, k: nat)
    requires k <= |s| && (forall i :: 0 <= i < k ==> s[i] != '/') && (k < |s| ==> s[k] == '/')
    ensures SlashAt(s) == k
  {
  }

  lemma {:induction false} SplitBefore(a: string, c: string)
    requires c != "" && c[0] == '/'
    ensures Split(a + c) == Split(a) + Split(c)
    decreases |a|
  {
    hide SlashAt;
    if a == "" {
      assert a + c == c;
    } else if a[0] == '/' {
      assert (a + c)[1..] == a[1..] + c;
      SplitBefore(a[1..], c);
    } else {
      var k := SlashAt(a);
      assert SlashAt(a + c) == k by {
        assert forall i :: 0 <= i < k ==> (a + c)[i] == a[i];
        SlashAtIs(a + c, k);
      }
      assert (a + c)[..k] == a[..k] && (a + c)[k..] == a[k..] + c;
      SplitBefore(a[k..], c);
    }
  }

  /** Text joined with a slash splits into the parts' components. */
  lemma SplitJoined(a: string, b: string)
    ensures Split(a + "/" + b) == Split(a) + Split(b)
  {
    var c := "/" + b;
    assert Split(c) == Split(b) by { assert c[1..] == b; }
    hide Split;
    assert a + "/" + b == a + c;
    SplitBefore(a, c);
  }

  lemma SplitComponent(n: Name)
    requires IsComponent(n)
    ensures Split(n) == [n]
  {
    SlashAtIs(n, |n|);
    assert n[..|n|] == n && n[|n|..] == "";
  }

  lemma {:induction false} SplitJoin(p: Path)
    requires AllComponents(p)
    ensures Split(Join(p)) == p
    decreases |p|
  {
    if |p| == 1 {
      SplitComponent(p[0]);
      assert p == [p[0]];
    } else if p != [] {
      SplitJoin(Parent(p));
      SplitComponent(p[|p| - 1]);
      SplitJoined(Join(Parent(p)), p[|p| - 1]);
      assert p == Parent(p) + [p[|p| - 1]];
    }
  }

  /** The last slash of `s`, or none. */
  function LastSlash(s: string): (k: int)
    ensures -1 <= k < |s|
    ensures k >= 0 ==> s[k] == '/'
    ensures forall i :: k < i < |s| ==> s[i] != '/'
  {
    if s == "" then -1
    else if s[|s| - 1] == '/' then |s| - 1
    else LastSlash(s[..|s| - 1])
  }

  lemma LastSlashOfJoin(p: Path)
    requires AllComponents(p) && p != []
    ensures |p| == 1 ==> LastSlash(Join(p)) == -1
    ensures |p| > 1 ==> LastSlash(Join(p)) == |Join(Parent(p))|
  {
    if |p| > 1 {
      var m, n := |Join(Parent(p))|, p[|p| - 1];
      assert Join(p)[m] == '/';
      forall i | m < i < |Join(p)| ensures Join(p)[i] != '/' {
        assert Join(p)[i] == n[i - m - 1];
      }
    }
  }

  /** Leading slashes do not change the components. */
  lemma {:induction false} SplitTrimmed(s: string, k: nat)
    requires k <= |s| && forall i :: 0 <= i < k ==> s[i] == '/'
    ensures Split(s) == Split(s[k..])
    decreases k
  {
    if k > 0 {
      SplitTrimmed(s[1..], k - 1);
      assert s[1..][k - 1..] == s[k..];
    } else {
      assert s[0..] == s;
    }
  }

  const MAX_COPY_PATH_LEN := 512
  const MAX_COPY_FULL_PATH_LEN := 1024

  /** A path the agent accepts as a destination or mount target: absolute, not
      the root, within the length limit, and spelled with plain components only. */
  predicate EntryPath(s: string) {
    1 < |s| <= MAX_COPY_PATH_LEN && PlainPath(Split(s)) && s == Spelled(Split(s))
  }

  /** Spelled paths have no empty component: no two slashes meet and none ends the path. */
  lemma {:induction false} SpelledShape(p: Path)
    requires AllComponents(p) && p != []
    ensures var s := Spelled(p);
            |s| >= 2 * |p| && s[0] == '/' && s[|s| - 1] != '/' && forall i :: 0 <= i < |s| - 1 && s[i] == '/' ==> s[i + 1] != '/'
    decreases |p|
  {
    var above, n := Spelled(Parent(p)), p[|p| - 1];
    if |p| > 1 {
      SpelledShape(Parent(p));
    }
    assert Spelled(p) == above + "/" + n;
  }

  lemma {:induction false} SplitSpelled(p: Path)
    requires AllComponents(p)
    ensures Split(Spelled(p)) == p
    decreases |p|
  {
    if p != [] {
      SplitSpelled(Parent(p));
      SplitComponent(p[|p| - 1]);
      SplitJoined(Spelled(Parent(p)), p[|p| - 1]);
      assert p == Parent(p) + [p[|p| - 1]];
    }
  }

  lemma {:induction false} SpelledAppend(p: Path, q: Path)
    ensures Spelled(p + q) == Spelled(p) + Spelled(q)
    decreases |q|
  {
    if q == [] {
      assert p + q == p;
    } else {
      SpelledAppend(p, Parent(q));
      assert Parent(p + q) == p + Parent(q);
    }
  }

  /** An accepted path has at most 256 components. */
  lemma EntryPathIsShort(s: string)
    requires EntryPath(s)
    ensures 0 < |Split(s)| <= MAX_COPY_PATH_LEN / 2
  {
    SpelledShape(Split(s));
  }

  method NextSlash(path: string, start: nat) returns (i: nat)
    requires start <= |path|
    ensures start <= i <= |path| && '/' !in path[start..i] && (i < |path| ==> path[i] == '/')
  {
    i := start;
    while i < |path| && path[i] != '/'
      invariant start <= i <= |path|
      invariant forall j :: start <= j < i ==> path[j] != '/'
    {
      i := i + 1;
    }
  }

  /** The scan of `validate_spore_copy_entry_path`, and of `valid_build_cache_target`. */
  method ValidEntryPath(path: string) returns (ok: bool)
    ensures ok <==> EntryPath(path)
  {
    EntryPathShape(path);
    if |path| < 2 || path[0] != '/' || |path| > MAX_COPY_PATH_LEN || path[|path| - 1] == '/' {
      return false;
    }
    assert path[..0] == Spelled([]);
    hide Split, Spelled;
    var i := 1;
    ghost var seen: Path := [];
    while i < |path|
      invariant 1 <= i <= |path|
      invariant AllComponents(seen) && PlainPath(seen)
      invariant if i < |path| then Begins(path, i, seen) else path == Spelled(seen)
    {
      var start := i;
      i := NextSlash(path, start);
      var part := path[start..i];
      if part == "" {
        assert path[start - 1] == '/' && path[start] == '/';
        return false;
      }
      ComponentsSoFar(path, seen, start, i);
      if part == "." || part == ".." {
        return false;
      }
      seen := seen + [part];
      if i < |path| {
        i := i + 1;
      }
    }
    SplitSpelled(seen);
    return true;
  }

  lemma EntryPathShape(s: string)
    ensures EntryPath(s) ==> s[0] == '/' && s[|s| - 1] != '/' && forall i :: 0 <= i < |s| - 1 && s[i] == '/' ==> s[i + 1] != '/'
  {
    if EntryPath(s) {
      SpelledShape(Split(s));
    }
  }

  /** The first `i` characters of `path` spell `seen` and the slash after it. */
  ghost predicate Begins(path: string, i: nat, seen: Path) {
    0 < i <= |path| && path[i - 1] == '/' && path[..i - 1] == Spelled(seen)
  }

  lemma ComponentsSoFar(path: string, seen: Path, start: nat, i: nat)
    requires AllComponents(seen) && Begins(path, start, seen) && start < i <= |path|
    requires '/' !in path[start..i] && (i < |path| ==> path[i] == '/')
    ensures |Split(path)| > |seen| && Split(path)[|seen|] == path[start..i]
    ensures if i < |path| then Begins(path, i + 1, seen + [path[start..i]]) else path == Spelled(seen + [path[start..i]])
  {
    hide Split, SlashAt, Spelled;
    var part, tail := path[start..i], path[start..];
    assert path == Spelled(seen) + "/" + tail;
    SplitSpelled(seen);
    SplitJoined(Spelled(seen), tail);
    FirstComponent(tail, i - start);
    assert tail[..i - start] == part;
    SpelledOnto(path, seen, start, i);
  }

  lemma FirstComponent(tail: string, k: nat)
    requires 0 < k <= |tail| && '/' !in tail[..k] && (k < |tail| ==> tail[k] == '/')
    ensures Split(tail) != [] && Split(tail)[0] == tail[..k]
  {
    assert forall j :: 0 <= j < k ==> tail[..k][j] == tail[j];
    SlashAtIs(tail, k);
  }

  lemma SpelledOnto(path: string, seen: Path, start: nat, i: nat)
    requires Begins(path, start, seen) && start < i <= |path| && (i < |path| ==> path[i] == '/')
    ensures if i < |path| then Begins(path, i + 1, seen + [path[start..i]]) else path == Spelled(seen + [path[start..i]])
  {
    var part := path[start..i];
    assert Parent(seen + [part]) == seen;
    assert path[..i] == Spelled(seen) + "/" + part;
    assert i == |path| ==> path[..i] == path;
  }

  lemma {:induction false} SpelledIsJoin(p: Path)
    requires p != []
    ensures Spelled(p) == "/" + Join(p)
    decreases |p|
  {
    if |p| > 1 {
      SpelledIsJoin(Parent(p));
    } else {
      assert Parent(p) == [];
    }
  }

  lemma JoinNothing()
    ensures Join([]) == "" && Split("") == []
  {
  }

  lemma LeadingSlash(s: string)
    ensures Split("/" + s) == Split(s)
  {
    assert ("/" + s)[1..] == s;
  }

  lemma NextPart(path: string, seen: Path, start: nat, i: nat)
    requires AllComponents(seen) && Begins("/" + path, start + 1, seen) && start < i <= |path|
    requires (forall j :: start <= j < i ==> path[j] != '/') && (i < |path| ==> path[i] == '/')
    ensures var full, part := "/" + path, path[start..i];
            && |Split(full)| > |seen| && Split(full)[|seen|] == part
            && if i < |path| then Begins(full, i + 2, seen + [part]) else full == Spelled(seen + [part])
  {
    hide Split, Spelled, Begins;
    var full := "/" + path;
    assert full[start + 1..i + 1] == path[start..i];
    ComponentsSoFar(full, seen, start + 1, i + 1);
  }

  lemma BeginsFresh(path: string)
    ensures Begins("/" + path, 1, [])
  {
  }

  lemma SlashBefore(path: string, start: nat, seen: Path)
    requires start < |path| && path[0] != '/' && Begins("/" + path, start + 1, seen)
    ensures start > 0 ==> path[start - 1] == '/'
  {
    assert ("/" + path)[start] == if start == 0 then '/' else path[start - 1];
  }

  lemma SpelledNothing(seen: Path)
    ensures seen == [] ==> Spelled(seen) == ""
  {
  }

  /** What `validate_build_context_source_path` accepts: the root itself, or a
      relative path spelled with plain components only. */
  predicate SourcePath(s: string) {
    s == "." || (0 < |s| <= MAX_COPY_PATH_LEN && PlainPath(Split(s)) && "/" + s == Spelled(Split(s)))
  }

  lemma SourcePathShape(s: string)
    requires SourcePath(s) && s != "."
    ensures s[0] != '/' && s[|s| - 1] != '/' && forall i :: 0 <= i < |s| - 1 && s[i] == '/' ==> s[i + 1] != '/'
  {
    hide Split, Spelled;
    var full := "/" + s;
    SpelledNothing(Split(s));
    SpelledShape(Split(s));
    forall i | 0 <= i < |s| ensures full[i + 1] == s[i] {
    }
  }

  /** The scan of `validate_build_context_source_path`. */
  method ValidSourcePath(path: string) returns (ok: bool)
    ensures ok <==> SourcePath(path)
  {
    hide Split, Spelled, Begins;
    if path == "." {
      return true;
    }
    if SourcePath(path) {
      SourcePathShape(path);
    }
    if |path| == 0 || |path| > MAX_COPY_PATH_LEN || path[0] == '/' || path[|path| - 1] == '/' {
      return false;
    }
    ghost var full := "/" + path;
    LeadingSlash(path);
    ghost var seen: Path := [];
    BeginsFresh(path);
    var i := 0;
    while i < |path|
      invariant 0 <= i <= |path| && AllComponents(seen) && PlainPath(seen)
      invariant if i < |path| then Begins(full, i + 1, seen) else full == Spelled(seen)
    {
      var start := i;
      i := NextSlash(path, start);
      var part := path[start..i];
      if part == "" {
        SlashBefore(path, start, seen);
        return false;
      }
      NextPart(path, seen, start, i);
      if part == "." || part == ".." {
        return false;
      }
      seen := seen + [part];
      if i < |path| {
        i := i + 1;
      }
    }
    SplitSpelled(seen);
    return true;
  }
}
