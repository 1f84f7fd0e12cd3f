/** The directories on the way to a RUN step's mount target: made where missing,
    with the identity of each one made, and taken away again
    (guest/minimal-initrd/build_copy.c). */
module TargetDirectories {
  import opened Tree
  import opened PathText
  import opened ConfinedWalk
  import opened Rootfs

  const MAX_CREATED_COMPONENTS := (MAX_COPY_PATH_LEN + 1) / 2
  const FILE_0644 := Meta(0x1A4, 0, 0)

  /** `cache_open_directory_no_symlinks`: every component a real directory. */
  function OpenReal(fs: Fs, cur: Path, todo: Path): (r: Found)
    decreases |todo|
  {
    if todo == [] then At(cur)
    else if |todo[0]| > NAME_MAX then Fails(NameTooLong)
    else if cur + [todo[0]] !in fs then Fails(NoEntry)
    else
      var view := fs[cur + [todo[0]]].view;
      if view.Link? then Fails(TooManyLinks)
      else if !view.Dir? then Fails(NotDirectory)
      else OpenReal(fs, cur + [todo[0]], todo[1..])
  }

  /** Names the file system can hold. */
  ghost predicate NamesFit(fs: Fs) {
    forall p, i :: p in fs && 0 <= i < |p| ==> |p[i]| <= NAME_MAX
  }

  ghost predicate Root(fs: Fs, nextId: nat) {
    WellFormed(fs) && NamesFit(fs) && forall p :: p in fs ==> fs[p].id < nextId
  }

  lemma {:induction false} OpenRealSteps(fs: Fs, cur: Path, todo: Path)
    requires IsDir(fs, cur)
    ensures OpenReal(fs, cur, todo).At? ==> OpenReal(fs, cur, todo).path == cur + todo && IsDir(fs, cur + todo)
    ensures (forall i :: 0 < i <= |todo| ==> IsDir(fs, cur + todo[..i])) && (forall i :: 0 <= i < |todo| ==> |todo[i]| <= NAME_MAX) ==>
              OpenReal(fs, cur, todo) == At(cur + todo)
    decreases |todo|
  {
    if todo == [] {
      assert cur + todo == cur;
    } else {
      assert todo[..1] == [todo[0]];
      assert cur + [todo[0]] + todo[1..] == cur + todo;
      if IsDir(fs, cur + [todo[0]]) {
        OpenRealSteps(fs, cur + [todo[0]], todo[1..]);
        forall i | 0 < i <= |todo| - 1 ensures cur + [todo[0]] + todo[1..][..i] == cur + todo[..i + 1] {
          assert [todo[0]] + todo[1..][..i] == todo[..i + 1];
        }
      }
    }
  }

  /** Opening one component past real directories depends on that component alone. */
  lemma {:induction false} OpenRealLast(fs: Fs, cur: Path, todo: Path, n: Name)
    requires OpenReal(fs, cur, todo) == At(cur + todo)
    ensures OpenReal(fs, cur, todo + [n]) == OpenReal(fs, cur + todo, [n])
    decreases |todo|
  {
    if todo == [] {
      assert cur + todo == cur && todo + [n] == [n];
    } else {
      assert (todo + [n])[0] == todo[0] && (todo + [n])[1..] == todo[1..] + [n];
      assert cur + [todo[0]] + todo[1..] == cur + todo;
      OpenRealLast(fs, cur + [todo[0]], todo[1..], n);
    }
  }

  lemma OpensNext(fs: Fs, p: Path, i: nat)
    requires WellFormed(fs) && NamesFit(fs) && i < |p| && DirsTo(fs, p, i)
    ensures OpenReal(fs, [], p[..i]) == At(p[..i])
    ensures var next := OpenReal(fs, [], p[..i + 1]);
            && (|p[i]| > NAME_MAX <==> next == Fails(NameTooLong))
            && (|p[i]| <= NAME_MAX && p[..i + 1] !in fs <==> next == Fails(NoEntry))
            && (IsDir(fs, p[..i + 1]) <==> next.At?)
  {
    var todo, n := p[..i], p[i];
    forall j | 0 < j <= i ensures IsDir(fs, [] + todo[..j]) {
      assert [] + todo[..j] == p[..j];
    }
    forall j | 0 <= j < i ensures |todo[j]| <= NAME_MAX {
      assert todo in fs;
    }
    OpenRealSteps(fs, [], todo);
    assert [] + todo == todo;
    OpenRealLast(fs, [], todo, n);
    assert p[..i + 1] == todo + [n];
    assert [n][1..] == [];
    assert IsDir(fs, p[..i + 1]) ==> |p[..i + 1][i]| <= NAME_MAX;
    assert p[..i + 1] in fs ==> |p[..i + 1][i]| <= NAME_MAX;
  }

  // ---- Creating what is missing ----

  /** `fs` with the directories of `p` past the first `k`, up to the `j`th, numbered from `first`. */
  ghost function Extended(fs: Fs, p: Path, k: nat, j: nat, first: nat): (m: Fs)
    requires k <= j <= |p|
    ensures forall q :: q in m <==> q in fs || (k < |q| <= j && q <= p)
    ensures forall q :: q in m ==> m[q] == if k < |q| <= j && q <= p then Node(first + |q| - k - 1, Dir(ROOT_0755)) else fs[q]
  {
    if j == k then fs
    else
      var m := Extended(fs, p, k, j - 1, first)[p[..j] := Node(first + j - k - 1, Dir(ROOT_0755))];
      assert forall q :: q <= p && |q| == j ==> q == p[..j];
      m
  }

  lemma ExtendedIsRoot(fs: Fs, nextId: nat, p: Path, k: nat, j: nat)
    requires Root(fs, nextId) && k <= j <= |p| && DirsTo(fs, p, k)
    requires forall i :: k <= i < j ==> |p[i]| <= NAME_MAX
    ensures Root(Extended(fs, p, k, j, nextId), nextId + j - k) && DirsTo(Extended(fs, p, k, j, nextId), p, j)
  {
    hide Extended;
    var m := Extended(fs, p, k, j, nextId);
    forall i | 0 <= i <= j ensures IsDir(m, p[..i]) {
      assert i <= k ==> IsDir(fs, p[..i]);
    }
    forall q | q in m && q != [] ensures IsDir(m, Parent(q)) {
      if q in fs {
        assert IsDir(fs, Parent(q));
      } else {
        assert Parent(q) == p[..|q| - 1];
      }
    }
    forall q, i | q in m && 0 <= i < |q| ensures |q[i]| <= NAME_MAX {
      if q !in fs {
        if i < k {
          assert p[..k] in fs && p[..k][i] == q[i];
        }
      }
    }
  }

  datatype Prepared = Ready | Blocked(error: Error)

  /** What the component loop of a prepare does over the first `m` components:
      the first `k` are directories already, the next `|created|` are made, and
      either that is all of them or the next one cannot be entered. */
  ghost predicate MadeDirectories(fs: Fs, nextId: nat, p: Path, m: nat, r: Prepared, fs': Fs, nextId': nat, created: seq<nat>, k: nat)
    requires m <= |p|
  {
    && k + |created| <= m && DirsTo(fs, p, k) && nextId' == nextId + |created| && (k < m ==> !IsDir(fs, p[..k + 1]))
    && fs' == Extended(fs, p, k, k + |created|, nextId) && Root(fs', nextId') && DirsTo(fs', p, k + |created|)
    && (created != [] ==> p[..k + 1] !in fs)
    && (forall i :: 0 <= i < |created| ==> created[i] == nextId + i)
    && match r {
      case Ready => k + |created| == m
      case Blocked(_) =>
        && k + |created| < m
        && (|p[k + |created|]| > NAME_MAX || (created == [] && p[..k + 1] in fs && !IsDir(fs, p[..k + 1])))
    }
  }

  /** Where the loop stands: the first `k` directories were there and the rest up to the `i`th were made. */
  ghost predicate Reached(fs: Fs, nextId: nat, p: Path, k: nat, i: nat, fs': Fs) {
    && k <= i <= |p| && Root(fs, nextId) && DirsTo(fs, p, k) && (i > k ==> p[..k + 1] !in fs)
    && fs' == Extended(fs, p, k, i, nextId) && Root(fs', nextId + i - k) && DirsTo(fs', p, i)
  }

  lemma NextComponent(fs: Fs, nextId: nat, p: Path, k: nat, i: nat, fs': Fs)
    requires Reached(fs, nextId, p, k, i, fs') && i < |p| && PlainPath(p)
    ensures var next, found := p[..i + 1], OpenReal(fs', [], p[..i + 1]);
            && DirsAbove(fs', next) && PlainPath(next)
            && (found.At? ==> i == k && IsDir(fs, next))
            && (found == Fails(NoEntry) ==> next !in fs' && next !in fs && |p[i]| <= NAME_MAX)
            && (found.Fails? ==> !IsDir(fs, p[..k + 1]))
            && (found.Fails? && found.error != NoEntry ==> |p[i]| > NAME_MAX || (i == k && next in fs && !IsDir(fs, next)))
  {
    hide Extended, OpenReal;
    OpensNext(fs', p, i);
    var next := p[..i + 1];
    assert forall j :: 0 <= j < i + 1 ==> next[..j] == p[..j];
    if i > k {
      assert p[..k + 1] < next;
      NothingBelow(fs, p[..k + 1], next);
      assert next !in fs';
    } else {
      assert next in fs' <==> next in fs;
    }
  }

  lemma EnteredNext(fs: Fs, nextId: nat, p: Path, k: nat, fs': Fs)
    requires Reached(fs, nextId, p, k, k, fs') && k < |p| && IsDir(fs, p[..k + 1])
    ensures Reached(fs, nextId, p, k + 1, k + 1, fs')
  {
    assert fs' == fs;
  }

  lemma ExtendedOnce(fs: Fs, p: Path, k: nat, i: nat, first: nat)
    requires k <= i < |p|
    ensures Extended(fs, p, k, i, first)[p[..i + 1] := Node(first + i - k, Dir(ROOT_0755))] == Extended(fs, p, k, i + 1, first)
  {
  }

  lemma NameFits(fs: Fs, nextId: nat, q: Path, j: nat)
    requires Root(fs, nextId) && q in fs && j < |q|
    ensures |q[j]| <= NAME_MAX
  {
  }

  lemma MadeNext(fs: Fs, nextId: nat, p: Path, k: nat, i: nat, fs': Fs)
    requires Reached(fs, nextId, p, k, i, fs') && i < |p| && |p[i]| <= NAME_MAX && p[..i + 1] !in fs'
    ensures Reached(fs, nextId, p, k, i + 1, fs'[p[..i + 1] := Node(nextId + i - k, Dir(ROOT_0755))])
  {
    hide Extended, Root;
    ExtendedOnce(fs, p, k, i, nextId);
    forall j | k <= j < i ensures |p[j]| <= NAME_MAX {
      NameFits(fs', nextId + i - k, p[..i], j);
    }
    assert i == k ==> p[..k + 1] !in fs;
    ExtendedIsRoot(fs, nextId, p, k, i + 1);
  }

  /** The component loop of both prepare functions. */
  method PrepareDirectories(fs: Fs, nextId: nat, p: Path, m: nat)
    returns (r: Prepared, fs': Fs, nextId': nat, created: seq<nat>)
    requires Root(fs, nextId) && m <= |p| <= MAX_CREATED_COMPONENTS && PlainPath(p)
    ensures exists k: nat :: MadeDirectories(fs, nextId, p, m, r, fs', nextId', created, k)
  {
    hide Extended, Root, DirsTo, PlainPath, OpenReal, DirsAbove, Reached, MadeDirectories, OpenDirectory;
    r, fs', nextId', created := Ready, fs, nextId, [];
    ghost var k: nat := 0;
    NothingReached(fs, nextId, p);
    var i := 0;
    while i < m
      invariant 0 <= i <= m && k + |created| == i && nextId' == nextId + |created| && r.Ready?
      invariant Reached(fs, nextId, p, k, i, fs') && (created != [] ==> !IsDir(fs, p[..k + 1]))
      invariant forall j :: 0 <= j < |created| ==> created[j] == nextId + j
    {
      var next := p[..i + 1];
      NextComponent(fs, nextId, p, k, i, fs');
      var found := OpenReal(fs', [], next);
      if found.At? {
        EnteredNext(fs, nextId, p, k, fs');
        k := k + 1;
      } else if found.error == NoEntry {
        assert |created| < MAX_CREATED_COMPONENTS;
        MadeNext(fs, nextId, p, k, i, fs');
        var ok;
        ok, fs', nextId' := EnsureConfinedDirectory(fs', nextId', next);
        assert ok;
        created := created + [fs'[next].id];
      } else {
        r := Blocked(found.error);
        ReachedIsMade(fs, nextId, p, m, r, fs', nextId', created, k);
        return;
      }
      i := i + 1;
    }
    ReachedIsMade(fs, nextId, p, m, r, fs', nextId', created, k);
  }

  lemma NothingReached(fs: Fs, nextId: nat, p: Path)
    requires Root(fs, nextId)
    ensures Reached(fs, nextId, p, 0, 0, fs)
  {
    assert p[..0] == [];
  }

  lemma ReachedIsMade(fs: Fs, nextId: nat, p: Path, m: nat, r: Prepared, fs': Fs, nextId': nat, created: seq<nat>, k: nat)
    requires m <= |p| && Reached(fs, nextId, p, k, k + |created|, fs') && nextId' == nextId + |created| && k + |created| <= m
    requires forall j :: 0 <= j < |created| ==> created[j] == nextId + j
    requires k < m ==> !IsDir(fs, p[..k + 1])
    requires r.Ready? ==> k + |created| == m
    requires r.Blocked? ==> k + |created| < m &&
                            (|p[k + |created|]| > NAME_MAX || (created == [] && p[..k + 1] in fs && !IsDir(fs, p[..k + 1])))
    ensures MadeDirectories(fs, nextId, p, m, r, fs', nextId', created, k)
  {
  }

  // ---- Taking it away again ----

  /** `fs` without the prefixes of `c` longer than `j`. */
  ghost function Shortened(fs: Fs, c: Path, j: nat): (m: Fs)
    ensures forall q :: q in m <==> q in fs && !(q <= c && |q| > j)
    ensures forall q :: q in m ==> m[q] == fs[q]
  {
    map q | q in fs && !(q <= c && |q| > j) :: fs[q]
  }

  /** Nothing lies below `q` but further prefixes of `c`. */
  ghost predicate OnlyChainBelow(fs: Fs, c: Path, q: Path) {
    forall e :: e in fs && q < e ==> e <= c
  }

  /** `fs` without the prefixes of `c` longer than `k` that hold nothing else. */
  ghost function Swept(fs: Fs, c: Path, k: nat): Fs {
    map q | q in fs && !(q <= c && |q| > k && OnlyChainBelow(fs, c, q)) :: fs[q]
  }

  /** The last `|ids|` prefixes of `c` are directories with those identities. */
  ghost predicate ChainIntact(fs: Fs, c: Path, ids: seq<nat>) {
    && |ids| <= |c| && DirsTo(fs, c, |c|)
    && forall j :: |c| - |ids| < j <= |c| ==> fs[c[..j]].id == ids[j - 1 - (|c| - |ids|)]
  }

  lemma ShortenedIsTree(fs: Fs, c: Path, j: nat)
    requires WellFormed(fs) && NamesFit(fs) && j <= |c| && c[..j] in fs
    requires forall i :: j < i <= |c| ==> OnlyChainBelow(fs, c, c[..i])
    ensures WellFormed(Shortened(fs, c, j)) && NamesFit(Shortened(fs, c, j))
  {
    var m := Shortened(fs, c, j);
    forall q | q in m && q != [] ensures IsDir(m, Parent(q)) {
      var up := Parent(q);
      assert IsDir(fs, up);
      assert up < q;
      assert up <= c ==> up == c[..|up|];
    }
  }

  /** A prefix of `c`, with the longer ones gone, is empty exactly when only the chain was below it. */
  lemma EmptyWhenChainOnly(fs: Fs, c: Path, j: nat)
    requires WellFormed(fs) && 0 < j <= |c| && c[..j] in fs
    requires forall i :: j < i <= |c| ==> OnlyChainBelow(fs, c, c[..i])
    ensures HasChildren(Shortened(fs, c, j), c[..j]) <==> !OnlyChainBelow(fs, c, c[..j])
  {
    var cur, m := c[..j], Shortened(fs, c, j);
    assert j < |c| ==> c[..j + 1] == cur + [c[j]];
    if HasChildren(m, cur) {
      var q :| q in m && q != [] && Parent(q) == cur;
      assert cur < q && |q| == j + 1;
    }
    if !OnlyChainBelow(fs, c, cur) {
      var e :| e in fs && cur < e && !(e <= c);
      var child := cur + [e[j]];
      BelowSomeChild(fs, cur, e);
      PrefixCases(child, e);
      assert child in m && Parent(child) == cur;
    }
  }

  /** What a removal loop makes of a recorded directory that holds something else. */
  datatype WhenFull = Fail | FailAtFirst | Stop

  /** Whether a removal loop over an intact chain ends well. */
  ghost predicate SweepsWell(fs: Fs, c: Path, ids: seq<nat>, whenFull: WhenFull)
    requires |ids| <= |c|
  {
    match whenFull
    case Fail => forall j :: |c| - |ids| < j <= |c| ==> OnlyChainBelow(fs, c, c[..j])
    case FailAtFirst => ids == [] || OnlyChainBelow(fs, c, c)
    case Stop => true
  }

  /** Where a removal loop stands: the last `i` prefixes of `c` are gone. */
  ghost predicate Sweeping(fs: Fs, c: Path, ids: seq<nat>, i: nat, fs': Fs) {
    && WellFormed(fs) && NamesFit(fs) && WellFormed(fs') && NamesFit(fs') && i <= |ids| <= |c|
    && fs' == Shortened(fs, c, |c| - i)
    && forall j :: |c| - i < j <= |c| ==> OnlyChainBelow(fs, c, c[..j]) && IsDir(fs, c[..j]) && fs[c[..j]].id in ids
  }

  lemma SweepStarts(fs: Fs, c: Path, ids: seq<nat>)
    requires WellFormed(fs) && NamesFit(fs) && |ids| <= |c|
    ensures Sweeping(fs, c, ids, 0, fs)
  {
  }

  lemma SweepOpens(fs: Fs, c: Path, ids: seq<nat>, i: nat, fs': Fs)
    requires Sweeping(fs, c, ids, i, fs') && i < |ids| && ChainIntact(fs, c, ids)
    ensures var cur := c[..|c| - i];
            OpenReal(fs', [], Parent(cur)).At? && IsDir(fs', cur) && fs'[cur].id == ids[|ids| - 1 - i]
  {
    hide OpenReal, WellFormed, NamesFit, OnlyChainBelow;
    var j := |c| - i;
    var cur := c[..j];
    forall k | 0 <= k <= j ensures IsDir(fs', c[..k]) {
      assert IsDir(fs, c[..k]);
    }
    assert Parent(cur) == c[..j - 1];
    OpensNext(fs', c, j - 1);
  }

  lemma SweepNext(fs: Fs, c: Path, ids: seq<nat>, i: nat, fs': Fs)
    requires Sweeping(fs, c, ids, i, fs') && i < |ids|
    requires IsDir(fs', c[..|c| - i]) && fs'[c[..|c| - i]].id in ids && !HasChildren(fs', c[..|c| - i])
    ensures Sweeping(fs, c, ids, i + 1, fs' - {c[..|c| - i]})
  {
    hide HasChildren, OnlyChainBelow, WellFormed, NamesFit;
    var j := |c| - i;
    EmptyWhenChainOnly(fs, c, j);
    NextIsTree(fs, c, j);
    OneShorter(fs, c, j);
  }

  lemma SweepFull(fs: Fs, c: Path, ids: seq<nat>, i: nat, fs': Fs, whenFull: WhenFull)
    requires Sweeping(fs, c, ids, i, fs') && i < |ids| && c[..|c| - i] in fs' && HasChildren(fs', c[..|c| - i])
    ensures fs' == Swept(fs, c, |c| - |ids|)
    ensures whenFull == Stop || (whenFull == FailAtFirst && i > 0) <==> SweepsWell(fs, c, ids, whenFull)
  {
    hide HasChildren, OnlyChainBelow, WellFormed, NamesFit;
    EmptyWhenChainOnly(fs, c, |c| - i);
    SweepSoFar(fs, c, |c| - i, |c| - |ids|);
    assert c[..|c|] == c;
  }

  lemma SweepDone(fs: Fs, c: Path, ids: seq<nat>, fs': Fs, whenFull: WhenFull)
    requires Sweeping(fs, c, ids, |ids|, fs')
    ensures fs' == Swept(fs, c, |c| - |ids|) && SweepsWell(fs, c, ids, whenFull)
  {
    hide OnlyChainBelow, WellFormed, NamesFit;
    SweepSoFar(fs, c, |c| - |ids|, |c| - |ids|);
    assert c[..|c|] == c;
  }

  lemma SweepRemoves(fs: Fs, c: Path, ids: seq<nat>, i: nat, fs': Fs)
    requires Sweeping(fs, c, ids, i, fs')
    ensures forall q :: q in fs && q !in fs' ==> IsDir(fs, q) && q <= c && fs[q].id in ids && OnlyChainBelow(fs, c, q)
    ensures i == 0 ==> fs' == fs
    ensures i > 0 ==> c in fs
    ensures WellFormed(fs') && NamesFit(fs')
  {
    hide OnlyChainBelow, WellFormed, NamesFit;
    SweepSoFar(fs, c, |c| - i, |c| - i);
    assert c[..|c|] == c;
  }

  /** The removal loops of both cleanup functions (`FailAtFirst` for a cache,
      `Stop` for a bind) and of a bind's rollback (`Fail`). A directory is
      removed only when it is empty and is the one recorded. */
  method RemoveCreated(fs: Fs, c: Path, ids: seq<nat>, whenFull: WhenFull) returns (ok: bool, fs': Fs)
    requires WellFormed(fs) && NamesFit(fs) && |ids| <= |c|
    ensures forall q :: q in fs && q !in fs' ==> IsDir(fs, q) && q <= c && fs[q].id in ids && OnlyChainBelow(fs, c, q)
    ensures ids != [] && c !in fs ==> !ok && fs' == fs
    ensures ids == [] ==> ok && fs' == fs
    ensures WellFormed(fs') && NamesFit(fs')
    ensures ChainIntact(fs, c, ids) ==> (ok <==> SweepsWell(fs, c, ids, whenFull)) && fs' == Swept(fs, c, |c| - |ids|)
  {
    hide Sweeping, SweepsWell, Swept, OnlyChainBelow, WellFormed, NamesFit, ChainIntact, OpenReal, HasChildren;
    fs' := fs;
    var i := 0;
    SweepStarts(fs, c, ids);
    SweepRemoves(fs, c, ids, 0, fs');
    assert c[..|c|] == c;
    while i < |ids|
      invariant 0 <= i <= |ids| && Sweeping(fs, c, ids, i, fs') && (i == 0 ==> fs' == fs) && (i > 0 ==> c in fs)
      invariant WellFormed(fs') && NamesFit(fs')
      invariant forall q :: q in fs && q !in fs' ==> IsDir(fs, q) && q <= c && fs[q].id in ids && OnlyChainBelow(fs, c, q)
    {
      var cur := c[..|c| - i];
      if ChainIntact(fs, c, ids) {
        SweepOpens(fs, c, ids, i, fs');
      }
      var parent := OpenReal(fs', [], Parent(cur));
      if parent.Fails? || cur !in fs' || !IsDir(fs', cur) || fs'[cur].id != ids[|ids| - 1 - i] {
        return false, fs';
      }
      if HasChildren(fs', cur) {
        SweepFull(fs, c, ids, i, fs', whenFull);
        return whenFull == Stop || (whenFull == FailAtFirst && i > 0), fs';
      }
      SweepNext(fs, c, ids, i, fs');
      fs' := fs' - {cur};
      i := i + 1;
      SweepRemoves(fs, c, ids, i, fs');
    }
    SweepDone(fs, c, ids, fs', whenFull);
    ok := true;
  }

  lemma OneShorter(fs: Fs, c: Path, j: nat)
    requires 0 < j <= |c|
    ensures Shortened(fs, c, j) - {c[..j]} == Shortened(fs, c, j - 1)
  {
    assert forall q :: q <= c && |q| == j ==> q == c[..j];
  }

  lemma NextIsTree(fs: Fs, c: Path, j: nat)
    requires WellFormed(fs) && NamesFit(fs) && 0 < j <= |c| && c[..j] in fs
    requires forall i :: j <= i <= |c| ==> OnlyChainBelow(fs, c, c[..i])
    ensures WellFormed(Shortened(fs, c, j - 1)) && NamesFit(Shortened(fs, c, j - 1))
  {
    assert Parent(c[..j]) == c[..j - 1];
    ShortenedIsTree(fs, c, j - 1);
  }

  /** What has gone by the time the loop stands at the `j`th prefix. */
  lemma SweepSoFar(fs: Fs, c: Path, j: nat, k: nat)
    requires k <= j <= |c|
    requires forall i :: j < i <= |c| ==> OnlyChainBelow(fs, c, c[..i])
    ensures forall q :: q in fs && q !in Shortened(fs, c, j) ==> q <= c && |q| > j && q == c[..|q|]
    ensures j == k || !OnlyChainBelow(fs, c, c[..j]) ==> Swept(fs, c, k) == Shortened(fs, c, j)
  {
    forall q | q <= c ensures q == c[..|q|] {
    }
    if j > k && !OnlyChainBelow(fs, c, c[..j]) {
      var e :| e in fs && c[..j] < e && !(e <= c);
      forall q | q <= c && |q| <= j ensures !OnlyChainBelow(fs, c, q) {
        assert q <= c[..j] && q < e;
      }
    }
  }
}
