/** How the kernel finds what a system call names, for the calls of
    guest/minimal-initrd/copy.c: links are followed on the way, but not at the end. */
module GuestPaths {
  import opened Tree
  import opened PathText
  import opened ConfinedWalk
  import opened WalkedLinks

  /** The place a path names: its directory, found by following links, and its
      last component there, whether or not something is at it. */
  function Where(fs: Fs, p: Path): Found
    requires p != []
  {
    match KernelResolve(fs, [], Parent(p), MAX_SYMLINK_DEPTH)
    case Fails(e) => Fails(e)
    case At(d) =>
      if !IsDir(fs, d) then Fails(NotDirectory)
      else if |p[|p| - 1]| > NAME_MAX then Fails(NameTooLong)
      else At(d + [p[|p| - 1]])
  }

  /** The same for a path as it is spelled. */
  function Locate(fs: Fs, text: string): Found {
    if Split(text) == [] then Fails(Invalid) else Where(fs, Split(text))
  }

  lemma LocateSpelled(fs: Fs, p: Path)
    requires AllComponents(p) && p != []
    ensures Locate(fs, Spelled(p)) == Where(fs, p)
  {
    hide Where, Split;
    SplitSpelled(p);
  }

  /** Below a directory a plain name is the place it says, whatever is there, a
      link too; below anything else, or with too long a name, it is none. */
  lemma NamesItself(fs: Fs, d: Path, n: Name)
    requires WellFormed(fs) && PlainPath(d) && d in fs && !fs[d].view.Link?
    ensures Where(fs, d + [n]) == if !fs[d].view.Dir? then Fails(NotDirectory) else if |n| > 255 then Fails(NameTooLong) else At(d + [n])
  {
    assert Parent(d + [n]) == d && [] + d == d;
    PlainLeads(fs, [], d, MAX_SYMLINK_DEPTH);
  }

  /** A call on a name in a directory that is a link to the absolute path `p` acts in `p`. */
  lemma NamesThroughLink(fs: Fs, cur: Path, l: Name, p: Path, n: Name)
    requires WellFormed(fs) && AllComponents(cur + [l] + p) && PlainPath(cur + [l]) && PlainPath(p) && |n| <= 255
    requires cur + [l] in fs && fs[cur + [l]].view.Link? && IsDir(fs, p)
    requires fs[cur + [l]].view.target == (if p == [] then "/" else Spelled(p)) && |fs[cur + [l]].view.target| <= MAX_COPY_PATH_LEN
    ensures Where(fs, cur + [l] + [n]) == At(p + [n])
  {
    hide KernelResolve;
    assert Parent(cur + [l] + [n]) == cur + [l] && cur + [l] + [] == cur + [l] && p + [] == p && cur + [l] + p + [] == cur + [l] + p;
    AbsoluteLink(fs, cur, l, p, []);
  }

  /** What was in the one tree is in the other, as it was. */
  ghost predicate Over(fs: Fs, fs': Fs) {
    forall q :: q in fs ==> q in fs' && fs'[q] == fs[q]
  }

  /** More files elsewhere do not change what a path leads to. */
  lemma {:induction false} ResolveGrows(fs: Fs, fs': Fs, cur: Path, todo: Path, links: nat)
    requires Over(fs, fs') && KernelResolve(fs, cur, todo, links).At?
    ensures KernelResolve(fs', cur, todo, links) == KernelResolve(fs, cur, todo, links)
    decreases links, |todo|
  {
    if todo != [] {
      var name, rest := todo[0], todo[1..];
      if name == "." {
        ResolveGrows(fs, fs', cur, rest, links);
      } else if name == ".." {
        ResolveGrows(fs, fs', Pop(cur), rest, links);
      } else {
        var view := fs[cur + [name]].view;
        if !view.Link? {
          ResolveGrows(fs, fs', cur + [name], rest, links);
        } else {
          ResolveGrows(fs, fs', if Absolute(view.target) then [] else cur, Split(view.target) + rest, links - 1);
        }
      }
    }
  }

  lemma WhereGrows(fs: Fs, fs': Fs, p: Path)
    requires Over(fs, fs') && p != [] && Where(fs, p).At?
    ensures Where(fs', p) == Where(fs, p)
  {
    hide KernelResolve;
    ResolveGrows(fs, fs', [], Parent(p), MAX_SYMLINK_DEPTH);
  }

  /** The result of one more step into something that is no link. */
  function Next(fs: Fs, r: Found, n: Name): Found {
    match r
    case Fails(e) => Fails(e)
    case At(d) => if !IsDir(fs, d) then Fails(NotDirectory) else if d + [n] in fs then At(d + [n]) else Fails(NoEntry)
  }

  lemma {:induction false} ResolveOneMore(fs: Fs, cur: Path, todo: Path, links: nat, n: Name)
    requires n != "." && n != ".."
    requires var r := KernelResolve(fs, cur, todo, links); r.At? && r.path + [n] in fs ==> !fs[r.path + [n]].view.Link?
    ensures KernelResolve(fs, cur, todo + [n], links) == Next(fs, KernelResolve(fs, cur, todo, links), n)
    decreases links, |todo|
  {
    var more := todo + [n];
    if todo == [] {
      assert more == [n] && more[1..] == [];
    } else {
      var name, rest := todo[0], todo[1..];
      assert more[0] == name && more[1..] == rest + [n];
      if IsDir(fs, cur) {
        if name == "." {
          ResolveOneMore(fs, cur, rest, links, n);
        } else if name == ".." {
          ResolveOneMore(fs, Pop(cur), rest, links, n);
        } else if cur + [name] in fs {
          var view := fs[cur + [name]].view;
          if !view.Link? {
            ResolveOneMore(fs, cur + [name], rest, links, n);
          } else if links > 0 && view.target != "" {
            var target := Split(view.target);
            assert target + (rest + [n]) == target + rest + [n];
            ResolveOneMore(fs, if Absolute(view.target) then [] else cur, target + rest, links - 1, n);
          }
        }
      }
    }
  }

  /** There are no links at or below `x`. */
  ghost predicate Unlinked(fs: Fs, x: Path) {
    forall q :: q in fs && x <= q ==> !fs[q].view.Link?
  }

  /** Below a place found in an older tree, a path leads where it says. */
  lemma {:induction false} ResolveInside(fs: Fs, fs': Fs, p: Path, x: Path, r: Path)
    requires p != [] && PlainPath(p) && PlainPath(r) && Where(fs, p) == At(x) && Over(fs, fs') && WellFormed(fs') && Unlinked(fs', x)
    ensures var found := KernelResolve(fs', [], p + r, MAX_SYMLINK_DEPTH);
            if x + r in fs' then found == At(x + r) else found.Fails?
    decreases |r|
  {
    hide KernelResolve, WellFormed;
    if r == [] {
      assert p + r == p == Parent(p) + [p[|p| - 1]] && x + r == x;
      ResolveGrows(fs, fs', [], Parent(p), MAX_SYMLINK_DEPTH);
      ResolveOneMore(fs', [], Parent(p), MAX_SYMLINK_DEPTH, p[|p| - 1]);
    } else {
      var above, n := Parent(r), r[|r| - 1];
      assert p + r == p + above + [n] && x + r == x + above + [n];
      ResolveInside(fs, fs', p, x, above);
      ResolveOneMore(fs', [], p + above, MAX_SYMLINK_DEPTH, n);
      AboveIsDir(fs', x + above, n);
    }
  }

  lemma AboveIsDir(fs: Fs, d: Path, n: Name)
    requires WellFormed(fs)
    ensures d + [n] in fs ==> IsDir(fs, d)
  {
    assert Parent(d + [n]) == d;
  }

  /** And a call names the place it says, exactly when there is a directory for it. */
  lemma WhereInside(fs: Fs, fs': Fs, p: Path, x: Path, r: Path)
    requires p != [] && PlainPath(p) && PlainPath(r) && Where(fs, p) == At(x) && Over(fs, fs') && WellFormed(fs') && Unlinked(fs', x)
    ensures p + r != []
    ensures r == [] ==> Where(fs', p + r) == At(x)
    ensures r != [] ==>
              if IsDir(fs', x + Parent(r)) && |r[|r| - 1]| <= NAME_MAX then Where(fs', p + r) == At(x + r) else Where(fs', p + r).Fails?
  {
    hide KernelResolve, WellFormed, Unlinked;
    if r == [] {
      assert p + r == p;
      WhereGrows(fs, fs', p);
    } else {
      assert Parent(p + r) == p + Parent(r) && (p + r)[|p + r| - 1] == r[|r| - 1];
      assert x + r == x + Parent(r) + [r[|r| - 1]];
      ResolveInside(fs, fs', p, x, Parent(r));
    }
  }
}
