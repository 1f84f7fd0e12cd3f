/** Directory operations on a root that the COPY and RUN code share
    (guest/minimal-initrd/build_copy.c). */
module Rootfs {
  import opened Tree
  import opened ConfinedWalk

  const ROOT_0755 := Meta(0x1ED, 0, 0)

  /** `confined_open_existing` with O_DIRECTORY, answered by the kernel. */
  function OpenDirectory(fs: Fs, p: Path): (r: Found) {
    var found := KernelResolve(fs, [], p, MAX_SYMLINK_DEPTH);
    if found.At? && !IsDir(fs, found.path) then Fails(NotDirectory) else found
  }

  /** Below real directories the kernel takes a plain path as it stands. */
  lemma {:induction false} KernelTakesPlainPath(fs: Fs, cur: Path, todo: Path, links: nat)
    requires DirsAbove(fs, cur + todo) && PlainPath(todo)
    ensures cur + todo in fs && !fs[cur + todo].view.Link? ==> KernelResolve(fs, cur, todo, links) == At(cur + todo)
    ensures cur + todo !in fs && todo != [] ==> KernelResolve(fs, cur, todo, links) == Fails(NoEntry)
    decreases |todo|
  {
    if todo == [] {
      assert cur + todo == cur;
    } else {
      assert (cur + todo)[..|cur|] == cur;
      assert cur + [todo[0]] + todo[1..] == cur + todo;
      if |todo| > 1 {
        assert (cur + todo)[..|cur| + 1] == cur + [todo[0]];
      } else {
        assert cur + todo == cur + [todo[0]];
      }
      KernelTakesPlainPath(fs, cur + [todo[0]], todo[1..], links);
    }
  }

  lemma OpensAsItself(fs: Fs, p: Path)
    requires DirsAbove(fs, p) && PlainPath(p)
    ensures IsDir(fs, p) ==> OpenDirectory(fs, p) == At(p)
    ensures p !in fs && p != [] ==> OpenDirectory(fs, p) == Fails(NoEntry)
  {
    assert [] + p == p;
    KernelTakesPlainPath(fs, [], p, MAX_SYMLINK_DEPTH);
  }

  /** On the way to `p`, and at it, there are only real directories as far as there is anything. */
  ghost predicate OnlyDirs(fs: Fs, p: Path) {
    WellFormed(fs) && PlainPath(p) && forall i :: 0 <= i <= |p| && p[..i] in fs ==> IsDir(fs, p[..i])
  }

  /** The first thing on the way to `p`, or at it, that is no directory is no link either. */
  ghost predicate Blocked(fs: Fs, p: Path, i: nat) {
    WellFormed(fs) && PlainPath(p) && 0 < i <= |p| && p[..i] in fs && !IsDir(fs, p[..i]) && !fs[p[..i]].view.Link?
  }

  /** `fs'` is `fs` with those of the first `k` prefixes of `p` that it lacked, as directories of the builder. */
  ghost predicate WithDirs(fs: Fs, p: Path, k: nat, fs': Fs, first: nat) {
    && (forall q :: q in fs ==> q in fs' && fs'[q] == fs[q])
    && (forall q :: q in fs' && q !in fs ==> q <= p && |q| <= k && fs'[q].view == Dir(Meta(0x1ED, 0, 0)) && fs'[q].id >= first)
    && (forall i :: 0 <= i <= k && i <= |p| ==> p[..i] in fs')
  }

  lemma DirsSoFar(fs: Fs, p: Path, k: nat, fs': Fs, first: nat)
    requires OnlyDirs(fs, p) && k <= |p| && WithDirs(fs, p, k, fs', first)
    ensures forall i :: 0 <= i <= k ==> IsDir(fs', p[..i])
  {
  }

  /** One more prefix belongs below directories. */
  lemma DirsToNext(fs: Fs, p: Path, k: nat, fs': Fs, first: nat)
    requires OnlyDirs(fs, p) && k < |p| && WithDirs(fs, p, k, fs', first)
    ensures var next := p[..k + 1];
            && next != [] && Parent(next) == p[..k] && DirsAbove(fs', next) && DirsAbove(fs', p[..k]) && IsDir(fs', p[..k])
            && (next in fs' ==> IsDir(fs', next))
  {
    hide WellFormed, PlainPath;
    var next := p[..k + 1];
    DirsSoFar(fs, p, k, fs', first);
    assert Parent(next) == p[..k];
    forall i | 0 <= i < k + 1 ensures next[..i] == p[..i] {
    }
    forall i | 0 <= i < k ensures p[..k][..i] == p[..i] {
    }
  }

  lemma WithNext(fs: Fs, p: Path, k: nat, fs': Fs, first: nat, id: nat)
    requires OnlyDirs(fs, p) && k < |p| && WithDirs(fs, p, k, fs', first) && id >= first
    ensures var next := p[..k + 1];
            if next in fs' then WithDirs(fs, p, k + 1, fs', first)
            else WithDirs(fs, p, k + 1, fs'[next := Node(id, Dir(Meta(0x1ED, 0, 0)))], first)
  {
    hide OnlyDirs;
  }

  lemma MadeIsWellFormed(fs: Fs, next: Path, id: nat)
    requires WellFormed(fs) && next !in fs && next != [] && IsDir(fs, Parent(next))
    ensures WellFormed(fs[next := Node(id, Dir(Meta(0x1ED, 0, 0)))])
  {
    var more := fs[next := Node(id, Dir(Meta(0x1ED, 0, 0)))];
    forall q | q in more && q != [] ensures IsDir(more, Parent(q)) {
      assert q != next ==> IsDir(fs, Parent(q));
    }
  }

  /** One more prefix: it is there, or it can be made where it belongs. */
  lemma OneMoreDir(fs: Fs, p: Path, k: nat, fs': Fs, first: nat, id: nat)
    requires OnlyDirs(fs, p) && k < |p| && WithDirs(fs, p, k, fs', first) && WellFormed(fs') && id >= first
    ensures var next := p[..k + 1];
            && next != [] && Parent(next) == p[..k] && DirsAbove(fs', next) && DirsAbove(fs', p[..k]) && IsDir(fs', p[..k])
            && (next in fs' ==> IsDir(fs', next) && WithDirs(fs, p, k + 1, fs', first))
            && (next !in fs' ==>
                  var more := fs'[next := Node(id, Dir(Meta(0x1ED, 0, 0)))];
                  WithDirs(fs, p, k + 1, more, first) && WellFormed(more))
  {
    hide WellFormed, WithDirs, OnlyDirs, DirsAbove;
    DirsToNext(fs, p, k, fs', first);
    WithNext(fs, p, k, fs', first, id);
    if p[..k + 1] !in fs' {
      MadeIsWellFormed(fs', p[..k + 1], id);
    }
  }

  lemma PlainPrefix(p: Path, k: nat)
    requires k <= |p| && PlainPath(p)
    ensures PlainPath(p[..k])
  {
  }

  /** What the kernel says of the next prefix, and of the one above it. */
  lemma NextPrefix(fs: Fs, p: Path, k: nat, fs': Fs, first: nat, id: nat)
    requires OnlyDirs(fs, p) && k < |p| && WithDirs(fs, p, k, fs', first) && WellFormed(fs') && id >= first
    ensures var next := p[..k + 1];
            && (next in fs' ==> OpenDirectory(fs', next) == At(next) && WithDirs(fs, p, k + 1, fs', first))
            && (next !in fs' ==>
                  && OpenDirectory(fs', next) == Fails(NoEntry) && OpenDirectory(fs', Parent(next)) == At(p[..k]) && p[..k] + [next[k]] == next
                  && var more := fs'[next := Node(id, Dir(Meta(0x1ED, 0, 0)))];
                     WithDirs(fs, p, k + 1, more, first) && WellFormed(more))
  {
    hide WellFormed, WithDirs, OpenDirectory, PlainPath;
    OneMoreDir(fs, p, k, fs', first, id);
    PlainPrefix(p, k);
    PlainPrefix(p, k + 1);
    OpensAsItself(fs', p[..k + 1]);
    OpensAsItself(fs', p[..k]);
  }

  /** Where the way is blocked, all above is real, and the kernel says so. */
  lemma BlockedThere(fs: Fs, p: Path, i: nat, k: nat)
    requires Blocked(fs, p, i) && 0 < k <= i
    ensures OpenDirectory(fs, p[..k]) == if k < i then At(p[..k]) else Fails(NotDirectory)
  {
    PrefixesAreDirs(fs, p[..i]);
    assert k < i ==> p[..i][..k] == p[..k];
    assert [] + p[..k] == p[..k];
    PrefixesAreDirs(fs, p[..k]);
    KernelTakesPlainPath(fs, [], p[..k], MAX_SYMLINK_DEPTH);
  }

  /** `ensure_parent_dirs`: open or make each directory above `p`. Below real
      directories it makes just those that are missing; at anything else that is
      no link it gives up, and nothing has changed. */
  method EnsureParentDirs(fs: Fs, nextId: nat, p: Path) returns (ok: bool, fs': Fs, nextId': nat)
    ensures DirsAbove(fs, p) && PlainPath(p) ==> ok && fs' == fs && nextId' == nextId
    ensures OnlyDirs(fs, p) && p != [] ==> ok && WithDirs(fs, p, |p| - 1, fs', nextId) && WellFormed(fs') && nextId' >= nextId
    ensures forall i: nat :: Blocked(fs, p, i) && i < |p| ==> !ok && fs' == fs
  {
    hide WellFormed, WithDirs, OpenDirectory, PlainPath, OnlyDirs, Blocked;
    fs', nextId' := fs, nextId;
    OnlyDirsIs(fs, p, nextId);
    var k := 1;
    while k < |p|
      invariant 1 <= k && (k <= |p| || |p| == 0)
      invariant DirsAbove(fs, p) && PlainPath(p) ==> fs' == fs && nextId' == nextId
      invariant OnlyDirs(fs, p) ==> WithDirs(fs, p, k - 1, fs', nextId) && WellFormed(fs') && nextId' >= nextId
      invariant forall i: nat :: Blocked(fs, p, i) ==> fs' == fs && k <= i
    {
      var prefix := p[..k];
      DirsAbovePrefix(fs, p, k);
      if DirsAbove(fs, p) && PlainPath(p) {
        PlainPrefix(p, k);
        OpensAsItself(fs, prefix);
      }
      if OnlyDirs(fs, p) {
        NextPrefix(fs, p, k - 1, fs', nextId, nextId');
      }
      forall i: nat | Blocked(fs, p, i) ensures OpenDirectory(fs, prefix) == if k < i then At(prefix) else Fails(NotDirectory) {
        BlockedThere(fs, p, i, k);
      }
      var dir := OpenDirectory(fs', prefix);
      if dir.Fails? {
        if dir.error != NoEntry {
          return false, fs', nextId';
        }
        var parent := OpenDirectory(fs', Parent(prefix));
        if parent.Fails? {
          return false, fs', nextId';
        }
        var at := parent.path + [prefix[k - 1]];
        if at !in fs' {
          fs', nextId' := fs'[at := Node(nextId', Dir(ROOT_0755))], nextId' + 1;
        }
      }
      k := k + 1;
    }
    ok := true;
  }

  lemma OnlyDirsIs(fs: Fs, p: Path, first: nat)
    ensures OnlyDirs(fs, p) ==> WellFormed(fs) && WithDirs(fs, p, 0, fs, first)
    ensures forall i: nat :: Blocked(fs, p, i) ==> 1 <= i <= |p|
  {
  }

  lemma DirsAbovePrefix(fs: Fs, p: Path, k: nat)
    requires 0 < k < |p|
    ensures DirsAbove(fs, p) ==> DirsAbove(fs, p[..k]) && IsDir(fs, p[..k])
  {
    assert forall j :: 0 <= j < k ==> p[..k][..j] == p[..j];
  }

  /** `ensure_confined_directory`: an existing directory is left as it is, and a
      missing one is made where it is missing, with those above it. */
  method EnsureConfinedDirectory(fs: Fs, nextId: nat, p: Path) returns (ok: bool, fs': Fs, nextId': nat)
    requires p != []
    ensures OpenDirectory(fs, p).At? ==> ok && fs' == fs && nextId' == nextId
    ensures DirsAbove(fs, p) && PlainPath(p) && p !in fs ==>
              ok && fs' == fs[p := Node(nextId, Dir(Meta(0x1ED, 0, 0)))] && nextId' == nextId + 1
    ensures OnlyDirs(fs, p) && p !in fs ==> ok && WithDirs(fs, p, |p|, fs', nextId) && WellFormed(fs')
    ensures forall i: nat :: Blocked(fs, p, i) ==> !ok && fs' == fs
  {
    hide WellFormed, WithDirs, OpenDirectory, PlainPath, OnlyDirs, Blocked;
    assert Parent(p) + [p[|p| - 1]] == p && p[..|p|] == p;
    PlainAbove(fs, p);
    if DirsAbove(fs, p) && PlainPath(p) {
      OpensAsItself(fs, p);
      OpensAsItself(fs, Parent(p));
    }
    forall i: nat | Blocked(fs, p, i) ensures OpenDirectory(fs, p).Fails? && (i == |p| ==> OpenDirectory(fs, p) == Fails(NotDirectory)) {
      BlockedBelow(fs, p, i);
    }
    if OnlyDirs(fs, p) && p !in fs {
      MissingBelow(fs, p);
    }
    OnlyDirsIs(fs, p, nextId);
    var existing := OpenDirectory(fs, p);
    if existing.At? {
      return true, fs, nextId;
    }
    if existing.error != NoEntry {
      return false, fs, nextId;
    }
    ok, fs', nextId' := EnsureParentDirs(fs, nextId, p);
    if !ok {
      return;
    }
    if OnlyDirs(fs, p) && p !in fs {
      NotYet(fs, p, fs', nextId);
      NextPrefix(fs, p, |p| - 1, fs', nextId, nextId');
      assert p[..|p| - 1 + 1] == p;
    }
    var parent := OpenDirectory(fs', Parent(p));
    if parent.Fails? {
      return false, fs', nextId';
    }
    var at := parent.path + [p[|p| - 1]];
    if at in fs' {
      existing := OpenDirectory(fs', p);
      return existing.At?, fs', nextId';
    }
    return true, fs'[at := Node(nextId', Dir(ROOT_0755))], nextId' + 1;
  }

  lemma NotYet(fs: Fs, p: Path, fs': Fs, first: nat)
    requires p != [] && p !in fs && WithDirs(fs, p, |p| - 1, fs', first)
    ensures p !in fs'
  {
  }

  lemma PlainAbove(fs: Fs, p: Path)
    requires p != []
    ensures PlainPath(p) ==> PlainPath(Parent(p))
    ensures DirsAbove(fs, p) ==> DirsAbove(fs, Parent(p)) && IsDir(fs, Parent(p))
  {
    assert forall k :: 0 <= k < |p| - 1 ==> Parent(p)[..k] == p[..k];
    assert p[..|p| - 1] == Parent(p);
  }

  /** Below something that is no directory the kernel finds nothing. */
  lemma BlockedBelow(fs: Fs, p: Path, i: nat)
    requires Blocked(fs, p, i)
    ensures OpenDirectory(fs, p) == Fails(NotDirectory)
  {
    BlockedThere(fs, p, i, i);
    PrefixesAreDirs(fs, p[..i]);
    assert [] + p[..i] == p[..i] && p == p[..i] + p[i..];
    GoesThrough(fs, [], p[..i], p[i..], MAX_SYMLINK_DEPTH);
  }

  /** A plain path to something that is no link is gone through to it. */
  lemma {:induction false} GoesThrough(fs: Fs, cur: Path, todo: Path, more: Path, links: nat)
    requires DirsAbove(fs, cur + todo) && PlainPath(todo) && cur + todo in fs && !fs[cur + todo].view.Link?
    ensures KernelResolve(fs, cur, todo + more, links) == KernelResolve(fs, cur + todo, more, links)
    decreases |todo|
  {
    if todo == [] {
      assert cur + todo == cur && todo + more == more;
    } else {
      assert (cur + todo)[..|cur|] == cur;
      assert cur + [todo[0]] + todo[1..] == cur + todo && (todo + more)[0] == todo[0] && (todo + more)[1..] == todo[1..] + more;
      if |todo| > 1 {
        assert (cur + todo)[..|cur| + 1] == cur + [todo[0]];
      } else {
        assert cur + todo == cur + [todo[0]];
      }
      GoesThrough(fs, cur + [todo[0]], todo[1..], more, links);
    }
  }

  /** Where only directories are missing, there is no entry. */
  lemma MissingBelow(fs: Fs, p: Path)
    requires OnlyDirs(fs, p) && p !in fs
    ensures OpenDirectory(fs, p) == Fails(NoEntry)
  {
    assert p[..|p|] == p;
    var k := FirstMissing(fs, p, |p|);
    var above, n := p[..k - 1], p[k - 1];
    assert p == above + p[k - 1..] && [] + above == above && p[k - 1..][0] == n;
    assert above + [n] == p[..k];
    PrefixesAreDirs(fs, above);
    PlainPrefix(p, k - 1);
    GoesThrough(fs, [], above, p[k - 1..], MAX_SYMLINK_DEPTH);
  }

  lemma {:induction false} FirstMissing(fs: Fs, p: Path, n: nat) returns (k: nat)
    requires WellFormed(fs) && n <= |p| && p[..n] !in fs
    ensures 0 < k <= n && p[..k] !in fs && p[..k - 1] in fs
    decreases n
  {
    assert n > 0;
    if p[..n - 1] in fs {
      k := n;
    } else {
      k := FirstMissing(fs, p, n - 1);
    }
  }
}
