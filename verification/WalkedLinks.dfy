/** Where paths through symbolic links lead, said of the tree and of the texts
    alone (guest/minimal-initrd/build_copy.c, `confined_open_path`). */
module WalkedLinks {
  import opened Tree
  import opened PathText
  import opened ConfinedWalk

  /** Components that are all directories are gone through one by one. */
  lemma {:induction false} ThroughDirectories(fs: Fs, cur: Path, p: Path, more: Path, links: nat)
    requires PlainPath(p) && forall k :: |cur| <= k <= |cur + p| ==> IsDir(fs, (cur + p)[..k])
    ensures Resolve(fs, cur, p + more, links) == Resolve(fs, cur + p, more, links)
    ensures KernelResolve(fs, cur, p + more, links) == KernelResolve(fs, cur + p, more, links)
    decreases |p|
  {
    if p == [] {
      assert p + more == more && cur + p == cur;
    } else {
      var next := cur + [p[0]];
      assert cur + p == next + p[1..] && (p + more)[0] == p[0] && (p + more)[1..] == p[1..] + more;
      assert (cur + p)[..|cur|] == cur && (cur + p)[..|cur| + 1] == next;
      ThroughDirectories(fs, next, p[1..], more, links);
    }
  }

  /** A plain path from a directory leads to what it names, unless that is a link. */
  lemma PlainLeads(fs: Fs, cur: Path, p: Path, links: nat)
    requires WellFormed(fs) && PlainPath(p) && cur + p in fs && !fs[cur + p].view.Link?
    ensures Resolve(fs, cur, p, links) == At(cur + p) && KernelResolve(fs, cur, p, links) == At(cur + p)
  {
    PrefixesAreDirs(fs, cur + p);
    if p == [] {
      assert cur + p == cur;
    } else {
      var above, n := Parent(p), p[|p| - 1];
      assert p == above + [n] && cur + p == cur + above + [n] && [n][1..] == [];
      forall k | |cur| <= k <= |cur + above| ensures IsDir(fs, (cur + above)[..k]) {
        assert (cur + above)[..k] == (cur + p)[..k];
      }
      ThroughDirectories(fs, cur, above, [n], links);
      assert (cur + above)[..|cur + above|] == cur + above;
      assert Resolve(fs, cur + above, [n], links) == Resolve(fs, cur + p, [], links);
      assert KernelResolve(fs, cur + above, [n], links) == KernelResolve(fs, cur + p, [], links);
    }
  }

  function Ups(k: nat): Path {
    seq(k, i => "..")
  }

  /** The directory `k` levels up, which is the root when there are not so many. */
  function Above(cur: Path, k: nat): Path {
    if k < |cur| then cur[..|cur| - k] else []
  }

  lemma {:induction false} UpsLead(fs: Fs, cur: Path, k: nat, more: Path, links: nat)
    requires WellFormed(fs) && IsDir(fs, cur)
    ensures IsDir(fs, Above(cur, k))
    ensures Resolve(fs, cur, Ups(k) + more, links) == Resolve(fs, Above(cur, k), more, links)
    ensures KernelResolve(fs, cur, Ups(k) + more, links) == KernelResolve(fs, Above(cur, k), more, links)
    decreases k
  {
    if k == 0 {
      assert Ups(0) + more == more && Above(cur, 0) == cur;
    } else {
      assert (Ups(k) + more)[0] == ".." && (Ups(k) + more)[1..] == Ups(k - 1) + more;
      assert Above(Pop(cur), k - 1) == Above(cur, k);
      UpsLead(fs, Pop(cur), k - 1, more, links);
    }
  }

  /** Text whose characters are a slash and `Join(todo)`, or just that, has those components. */
  lemma TargetText(target: string, todo: Path)
    requires AllComponents(todo) && (target == "/" + Join(todo) || target == Join(todo))
    ensures Split(target) == todo
  {
    SplitJoin(todo);
    LeadingSlash(Join(todo));
  }

  lemma NoLeadingSlash(todo: Path)
    requires AllComponents(todo) && todo != []
    ensures Join(todo) != "" && Join(todo)[0] != '/'
    decreases |todo|
  {
    if |todo| > 1 {
      NoLeadingSlash(Parent(todo));
    }
  }

  /** One link: an absolute target goes on from the root, any other from the link's directory. */
  lemma LinkLeads(fs: Fs, cur: Path, n: Name, todo: Path, rest: Path, links: nat)
    requires WellFormed(fs) && PlainPath(cur + [n]) && cur + [n] in fs && fs[cur + [n]].view.Link? && AllComponents(todo) && links > 0
    requires |fs[cur + [n]].view.target| <= MAX_COPY_PATH_LEN
    ensures fs[cur + [n]].view.target == "/" + Join(todo) ==>
              && Resolve(fs, [], cur + [n] + rest, links) == Resolve(fs, [], todo + rest, links - 1)
              && KernelResolve(fs, [], cur + [n] + rest, links) == KernelResolve(fs, [], todo + rest, links - 1)
    ensures todo != [] && fs[cur + [n]].view.target == Join(todo) ==>
              && Resolve(fs, [], cur + [n] + rest, links) == Resolve(fs, cur, todo + rest, links - 1)
              && KernelResolve(fs, [], cur + [n] + rest, links) == KernelResolve(fs, cur, todo + rest, links - 1)
  {
    hide Split, Join;
    var target := fs[cur + [n]].view.target;
    PrefixesAreDirs(fs, cur + [n]);
    forall k | 0 <= k <= |cur| ensures IsDir(fs, ([] + cur)[..k]) {
      assert ([] + cur)[..k] == (cur + [n])[..k];
    }
    assert PlainPath(cur) && (cur + [n])[|cur|] == n by {
      assert forall i :: 0 <= i < |cur| ==> cur[i] == (cur + [n])[i];
    }
    ThroughDirectories(fs, [], cur, [n] + rest, links);
    assert [] + cur == cur && cur + ([n] + rest) == cur + [n] + rest && ([n] + rest)[1..] == rest && ([] + cur)[..|cur|] == cur;
    if target == "/" + Join(todo) || target == Join(todo) {
      TargetText(target, todo);
    }
    if todo != [] {
      NoLeadingSlash(todo);
    }
  }

  /** A path that goes through a link to the absolute path `p` leads below `p`. */
  lemma AbsoluteLink(fs: Fs, cur: Path, n: Name, p: Path, rest: Path)
    requires WellFormed(fs) && AllComponents(cur + [n] + p + rest) && PlainPath(cur + [n]) && PlainPath(p + rest)
    requires cur + [n] in fs && fs[cur + [n]].view.Link? && p + rest in fs && !fs[p + rest].view.Link?
    requires fs[cur + [n]].view.target == (if p == [] then "/" else Spelled(p)) && |fs[cur + [n]].view.target| <= MAX_COPY_PATH_LEN
    ensures ResolveText(fs, Spelled(cur + [n] + rest)) == At(p + rest)
    ensures KernelResolve(fs, [], cur + [n] + rest, MAX_SYMLINK_DEPTH) == At(p + rest)
  {
    hide Split, Spelled, Join, Resolve, KernelResolve;
    Parts(cur + [n], p, rest);
    assert "/" + Join(p) == fs[cur + [n]].view.target by {
      JoinNothing();
      if p == [] {
        assert "/" + "" == "/";
      } else {
        SpelledIsJoin(p);
      }
    }
    SplitSpelled(cur + [n] + rest);
    LinkLeads(fs, cur, n, p, rest, MAX_SYMLINK_DEPTH);
    assert [] + (p + rest) == p + rest;
    PlainLeads(fs, [], p + rest, MAX_SYMLINK_DEPTH - 1);
  }

  /** A path that goes through a link to `k` times dot-dot and then `p` leads below
      `p` in the directory so far up from the link, and never out of the root. */
  lemma RelativeLink(fs: Fs, cur: Path, n: Name, k: nat, p: Path, rest: Path)
    requires WellFormed(fs) && AllComponents(cur + [n] + p + rest) && PlainPath(cur + [n]) && PlainPath(p + rest) && k + |p| > 0
    requires cur + [n] in fs && fs[cur + [n]].view.Link?
    requires fs[cur + [n]].view.target == Join(Ups(k) + p) && |fs[cur + [n]].view.target| <= MAX_COPY_PATH_LEN
    requires var to := Above(cur, k) + (p + rest); to in fs && !fs[to].view.Link?
    ensures ResolveText(fs, Spelled(cur + [n] + rest)) == At(Above(cur, k) + (p + rest))
    ensures KernelResolve(fs, [], cur + [n] + rest, MAX_SYMLINK_DEPTH) == At(Above(cur, k) + (p + rest))
  {
    hide Split, Spelled, Join, Resolve, KernelResolve;
    Parts(cur + [n], p, rest);
    assert AllComponents(Ups(k) + p);
    SplitSpelled(cur + [n] + rest);
    LinkLeads(fs, cur, n, Ups(k) + p, rest, MAX_SYMLINK_DEPTH);
    assert Ups(k) + p + rest == Ups(k) + (p + rest);
    assert IsDir(fs, cur) by {
      assert Parent(cur + [n]) == cur;
    }
    UpsLead(fs, cur, k, p + rest, MAX_SYMLINK_DEPTH - 1);
    PlainLeads(fs, Above(cur, k), p + rest, MAX_SYMLINK_DEPTH - 1);
  }

  lemma Parts(a: Path, p: Path, rest: Path)
    requires AllComponents(a + p + rest)
    ensures AllComponents(p) && AllComponents(a + rest)
  {
    var all := a + p + rest;
    forall i | 0 <= i < |p| ensures IsComponent(p[i]) {
      assert p[i] == all[|a| + i];
    }
    forall i | 0 <= i < |a + rest| ensures IsComponent((a + rest)[i]) {
      assert (a + rest)[i] == all[if i < |a| then i else i + |p|];
    }
  }
}
