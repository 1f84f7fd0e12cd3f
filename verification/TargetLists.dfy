/** Which lists of mount targets a RUN request may carry
    (guest/minimal-initrd/request.c). */
module TargetLists {
  import opened Tree
  import opened PathText
  import opened MountTargets
  import opened RunMounts

  const MAX_BUILD_CACHE_MOUNTS := 8
  const MAX_BUILD_CONTEXT_BINDS := 8
  const OWNED: seq<string> := ["/proc", "/dev", "/sys", "/run/sporevm", "/run/buildkit", "/etc/resolv.conf"]

  /** `build_cache_targets_overlap`, on the text of the two targets. */
  predicate Overlaps(a: string, b: string) {
    || a == b
    || (|a| < |b| && a == b[..|a|] && b[|a|] == '/')
    || (|b| < |a| && b == a[..|b|] && a[|b|] == '/')
  }

  lemma PrefixSpelled(p: Path, q: Path)
    requires AllComponents(q) && p <= q && p != q
    ensures |Spelled(p)| < |Spelled(q)| && Spelled(p) == Spelled(q)[..|Spelled(p)|] && Spelled(q)[|Spelled(p)|] == '/'
  {
    hide Spelled;
    PrefixCases(p, q);
    var rest := q[|p|..];
    assert q == p + rest;
    SpelledAppend(p, rest);
    SpelledShape(rest);
  }

  lemma LongerText(a: string, b: string)
    requires |a| < |b| && a == b[..|a|] && b[|a|] == '/'
    ensures Split(a) <= Split(b)
  {
    hide Split;
    var tail := b[|a| + 1..];
    assert b == a + "/" + tail;
    SplitJoined(a, tail);
  }

  lemma EntryIsSpelled(s: string)
    requires EntryPath(s)
    ensures s == Spelled(Split(s))
  {
  }

  lemma PrefixAsText(a: string, b: string)
    requires EntryPath(a) && EntryPath(b)
    ensures Split(a) <= Split(b) <==> a == b || (|a| < |b| && a == b[..|a|] && b[|a|] == '/')
  {
    hide Split, Spelled, EntryPath;
    EntryIsSpelled(a);
    EntryIsSpelled(b);
    if Split(a) <= Split(b) && Split(a) != Split(b) {
      PrefixSpelled(Split(a), Split(b));
    }
    if |a| < |b| && a == b[..|a|] && b[|a|] == '/' {
      LongerText(a, b);
    }
  }

  /** The text check finds exactly the pairs where one target lies on the way to the other. */
  lemma OverlapIsPrefix(a: string, b: string)
    requires EntryPath(a) && EntryPath(b)
    ensures Overlaps(a, b) <==> Split(a) <= Split(b) || Split(b) <= Split(a)
  {
    hide EntryPath;
    PrefixAsText(a, b);
    PrefixAsText(b, a);
  }

  ghost predicate AllEntryPaths(texts: seq<string>) {
    forall i :: 0 <= i < |texts| ==> EntryPath(texts[i])
  }

  ghost predicate NoOverlaps(texts: seq<string>) {
    forall i, j :: 0 <= i < j < |texts| ==> !Overlaps(texts[i], texts[j])
  }

  /** The target leaves the agent's own paths alone. */
  ghost predicate NotOwned(text: string) {
    forall j :: 0 <= j < |OWNED| ==> !Overlaps(text, OWNED[j])
  }

  ghost predicate NoneOwned(texts: seq<string>) {
    forall i :: 0 <= i < |texts| ==> NotOwned(texts[i])
  }

  /** The cache targets of a request and then its bind targets. */
  ghost function Targets(caches: seq<string>, binds: seq<string>): (ts: seq<Target>)
    ensures |ts| == |caches| + |binds|
  {
    seq(|caches| + |binds|, i requires 0 <= i < |caches| + |binds| =>
      if i < |caches| then Target(Cache, Split(caches[i])) else Target(Bind, Split(binds[i - |caches|])))
  }

  lemma TargetsApart(caches: seq<string>, binds: seq<string>)
    requires AllEntryPaths(caches + binds)
    ensures NoOverlaps(caches + binds) <==> Antichain(Targets(caches, binds))
    ensures AllValid(Targets(caches, binds))
  {
    hide EntryPath, Overlaps, ValidTarget;
    var texts, ts := caches + binds, Targets(caches, binds);
    assert forall i :: 0 <= i < |ts| ==> ts[i].path == Split(texts[i]);
    forall i, j | 0 <= i < |texts| && 0 <= j < |texts| && i != j
      ensures Overlaps(texts[i], texts[j]) <==> ts[i].path <= ts[j].path || ts[j].path <= ts[i].path
    {
      OverlapIsPrefix(texts[i], texts[j]);
    }
    forall i | 0 <= i < |ts| ensures ValidTarget(ts[i]) {
      EntryPathIsShort(texts[i]);
      EntryPathIsTarget(ts[i].kind, texts[i]);
    }
  }

  /** `valid_build_cache_target` and `valid_build_context_bind_target`. */
  method AcceptTarget(text: string, kind: Kind) returns (ok: bool)
    ensures ok <==> EntryPath(text) && (kind == Bind ==> NotOwned(text))
  {
    hide EntryPath, Overlaps;
    ok := ValidEntryPath(text);
    if !ok || kind == Cache {
      return;
    }
    for k := 0 to |OWNED|
      invariant forall j :: 0 <= j < k ==> !Overlaps(text, OWNED[j])
    {
      if Overlaps(text, OWNED[k]) {
        return false;
      }
    }
  }

  /** The loop of both list parsers that compares a target with those before it. */
  method AcceptBeside(texts: seq<string>, text: string) returns (ok: bool)
    ensures ok <==> forall i :: 0 <= i < |texts| ==> !Overlaps(texts[i], text)
  {
    hide Overlaps;
    for prior := 0 to |texts|
      invariant forall i :: 0 <= i < prior ==> !Overlaps(texts[i], text)
    {
      if Overlaps(texts[prior], text) {
        return false;
      }
    }
    return true;
  }

  /** No bind lies on the way to a cache mount, and none the other way round. */
  ghost predicate NoneAcross(caches: seq<string>, binds: seq<string>) {
    forall k, j :: 0 <= k < |binds| && 0 <= j < |caches| ==> !Overlaps(caches[j], binds[k])
  }

  /** The loops of `validate_build_run_request` that compare the two lists. */
  method AcceptAcross(caches: seq<string>, binds: seq<string>) returns (ok: bool)
    ensures ok <==> NoneAcross(caches, binds)
  {
    hide Overlaps;
    for i := 0 to |binds|
      invariant forall k, j :: 0 <= k < i && 0 <= j < |caches| ==> !Overlaps(caches[j], binds[k])
    {
      for j := 0 to |caches|
        invariant forall l :: 0 <= l < j ==> !Overlaps(caches[l], binds[i])
      {
        OverlapsEitherWay(binds[i], caches[j]);
        if Overlaps(binds[i], caches[j]) {
          return false;
        }
      }
    }
    return true;
  }

  /** The checks of both lists and across them come to this: the targets of a
      request are an antichain. */
  lemma ListsApart(caches: seq<string>, binds: seq<string>)
    requires AllEntryPaths(caches) && AllEntryPaths(binds)
    ensures NoOverlaps(caches) && NoOverlaps(binds) && NoneAcross(caches, binds) <==> Antichain(Targets(caches, binds))
    ensures AllValid(Targets(caches, binds))
  {
    hide AllEntryPaths, NoOverlaps, Antichain, AllValid, Targets, Overlaps;
    BothLists(caches, binds);
    TargetsApart(caches, binds);
  }

  lemma OverlapsEitherWay(a: string, b: string)
    ensures Overlaps(a, b) <==> Overlaps(b, a)
  {
  }

  lemma BothLists(caches: seq<string>, binds: seq<string>)
    ensures AllEntryPaths(caches + binds) <==> AllEntryPaths(caches) && AllEntryPaths(binds)
    ensures NoOverlaps(caches + binds) <==>
              NoOverlaps(caches) && NoOverlaps(binds) && forall k, j :: 0 <= k < |binds| && 0 <= j < |caches| ==> !Overlaps(caches[j], binds[k])
  {
    hide EntryPath, Overlaps;
    var texts := caches + binds;
    assert forall j :: 0 <= j < |caches| ==> texts[j] == caches[j];
    assert forall k :: 0 <= k < |binds| ==> texts[|caches| + k] == binds[k];
    forall i | 0 <= i < |texts| ensures if i < |caches| then texts[i] == caches[i] else texts[i] == binds[i - |caches|] {
    }
  }
}
