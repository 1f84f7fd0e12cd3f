/** One mount target of a RUN step: a directory for a cache mount or a file for
    a context bind, prepared before the step and cleaned up after it
    (guest/minimal-initrd/build_copy.c). */
module MountTargets {
  import opened Tree
  import opened PathText
  import opened ConfinedWalk
  import opened Rootfs
  import opened TargetDirectories

  datatype Kind = Cache | Bind
  datatype Target = Target(kind: Kind, path: Path)

  /** What `validate_spore_copy_entry_path` leaves of a target: see `EntryPathIsTarget`. */
  ghost predicate ValidTarget(t: Target) {
    0 < |t.path| <= MAX_CREATED_COMPONENTS && PlainPath(t.path)
  }

  lemma EntryPathIsTarget(kind: Kind, s: string)
    requires EntryPath(s) && Split(s) != []
    ensures ValidTarget(Target(kind, Split(s)))
  {
    EntryPathIsShort(s);
  }

  datatype Identity = Unknown | Inode(id: nat)

  /** What a prepare records: the directories it made, whether it made the file
      of a bind, and the identity of the target. */
  datatype Mount = Mount(target: Target, created: seq<nat>, targetCreated: bool, identity: Identity)

  /** The directories a prepare walks: all of a cache target, all but the last component of a bind. */
  function Stem(t: Target): Path {
    if t.kind == Cache || t.path == [] then t.path else Parent(t.path)
  }

  /** The paths a mount's record says were made. */
  ghost function Created(m: Mount): (s: set<Path>)
    ensures forall q :: q in s <==> (q <= Stem(m.target) && |q| > |Stem(m.target)| - |m.created|) || (m.targetCreated && q == m.target.path)
  {
    var stem := Stem(m.target);
    assert forall q :: q <= stem ==> q == stem[..|q|];
    (set i | 0 <= i <= |stem| && i > |stem| - |m.created| :: stem[..i]) + (if m.targetCreated then {m.target.path} else {})
  }

  /** The prefixes of `p` that `fs` lacks. */
  ghost function Missing(fs: Fs, p: Path): (s: set<Path>)
    ensures forall q :: q in s <==> q <= p && q !in fs
  {
    assert forall q :: q <= p ==> q == p[..|q|];
    set i | 0 <= i <= |p| && p[..i] !in fs :: p[..i]
  }

  /** The target can be had: names fit, what exists above it are directories,
      and it is itself missing or of the right kind. */
  ghost predicate Preparable(fs: Fs, t: Target) {
    && (forall i :: 0 <= i < |t.path| ==> |t.path[i]| <= NAME_MAX)
    && (forall q :: q in fs && q < t.path ==> IsDir(fs, q))
    && (t.path in fs ==> if t.kind == Cache then IsDir(fs, t.path) else fs[t.path].view.File?)
  }

  ghost predicate Reaches(earlier: seq<Target>, q: Path) {
    exists e :: e in earlier && q <= e.path
  }

  /** The `i`th component of `t` is the first one missing and can be made, and
      a later directory has a name no directory can hold. Directories on the
      way to `earlier` targets exist by then. */
  ghost predicate StrandsAt(fs: Fs, earlier: seq<Target>, t: Target, i: nat) {
    && i < |Stem(t)| && |t.path[i]| <= NAME_MAX && TooLongAfter(t, i)
    && (IsDir(fs, t.path[..i]) || Reaches(earlier, t.path[..i]))
    && t.path[..i + 1] !in fs && !Reaches(earlier, t.path[..i + 1])
  }

  ghost predicate TooLongAfter(t: Target, i: nat) {
    exists j :: i < j < |Stem(t)| && |t.path[j]| > NAME_MAX
  }

  ghost predicate Strands(fs: Fs, earlier: seq<Target>, t: Target) {
    exists i: nat :: StrandsAt(fs, earlier, t, i)
  }

  /** `p` is the only name of its inode (st_nlink is 1). */
  predicate OnlyName(fs: Fs, p: Path)
    requires p in fs
  {
    forall q | q in fs :: fs[q].id == fs[p].id ==> q == p
  }

  /** The target and everything made for it are still there as recorded. */
  ghost predicate Kept(fs: Fs, m: Mount) {
    var p := m.target.path;
    && p in fs && m.identity == Inode(fs[p].id) && ChainIntact(fs, Stem(m.target), m.created)
    && match m.target.kind
       case Cache => !m.targetCreated
       case Bind => fs[p].view.File? && (if m.targetCreated then fs[p].view.data == [] && OnlyName(fs, p) else m.created == [])
  }

  /** `fs'` is `fs` with the missing prefixes of the target: empty root-owned
      directories and, for a bind, an empty file. */
  ghost predicate Added(fs: Fs, first: nat, t: Target, fs': Fs) {
    && fs'.Keys == fs.Keys + Missing(fs, t.path)
    && (forall q :: q in fs ==> fs'[q] == fs[q])
    && (forall q :: q in fs' && q !in fs ==>
          fs'[q].view == (if q == t.path && t.kind == Bind then File(FILE_0644, []) else Dir(ROOT_0755)) && fs'[q].id >= first)
  }

  /** A prepare added exactly the missing prefixes of the target, and recorded them. */
  ghost predicate Provided(fs: Fs, nextId: nat, m: Mount, fs': Fs, nextId': nat) {
    && Root(fs', nextId') && nextId' >= nextId && Added(fs, nextId, m.target, fs') && Kept(fs', m)
    && Created(m) == Missing(fs, m.target.path) && |m.created| <= MAX_CREATED_COMPONENTS
  }

  datatype Outcome = Settled | Failed | Uncertain

  /** What the loop over the directories leaves says which prefixes were missing. */
  lemma MadeAreMissing(fs: Fs, nextId: nat, p: Path, m: nat, r: Prepared, fs': Fs, nextId': nat, created: seq<nat>, k: nat)
    requires m <= |p| && Root(fs, nextId) && MadeDirectories(fs, nextId, p, m, r, fs', nextId', created, k)
    ensures forall q :: q <= p && |q| <= k ==> q in fs
    ensures k < m && p[..k + 1] !in fs ==> forall q :: q <= p && |q| > k ==> q !in fs
    ensures forall q :: q in fs' <==> q in fs || (k < |q| <= k + |created| && q <= p)
    ensures forall q :: q in fs ==> q in fs' && fs'[q] == fs[q]
    ensures forall q :: q in fs' && q !in fs ==> fs'[q].view == Dir(ROOT_0755) && nextId <= fs'[q].id < nextId'
  {
    hide Extended;
    forall q | q <= p && |q| <= k ensures q in fs {
      assert q == p[..|q|];
    }
    if k < m && p[..k + 1] !in fs {
      forall q | q <= p && |q| > k ensures q !in fs {
        PrefixCases(p[..k + 1], q);
        if p[..k + 1] < q {
          NothingBelow(fs, p[..k + 1], q);
        }
      }
    }
  }

  lemma NothingReached0(q: Path)
    ensures !Reaches([], q)
  {
  }

  /** A directory on the way makes every prefix of it one. */
  lemma DirAboveDir(fs: Fs, p: Path, i: nat)
    requires WellFormed(fs) && i <= |p| && IsDir(fs, p[..i])
    ensures DirsTo(fs, p, i)
  {
    PrefixesAreDirs(fs, p[..i]);
    forall j | 0 <= j <= i ensures IsDir(fs, p[..j]) {
      assert j < i ==> p[..i][..j] == p[..j];
    }
  }

  /** Where the loop over the directories stopped. */
  lemma StoppedAt(fs: Fs, nextId: nat, p: Path, m: nat, r: Prepared, fs': Fs, nextId': nat, created: seq<nat>, k: nat)
    requires m <= |p| && r.Blocked? && MadeDirectories(fs, nextId, p, m, r, fs', nextId', created, k)
    ensures k + |created| < m && DirsTo(fs, p, k) && !IsDir(fs, p[..k + 1])
    ensures created != [] ==> p[..k + 1] !in fs && |p[k]| <= NAME_MAX < |p[k + |created|]|
    ensures created == [] ==> |p[k]| > NAME_MAX || p[..k + 1] in fs
  {
    if created != [] {
      assert p[..k + 1] in fs' && |p[..k + 1][k]| <= NAME_MAX;
    }
  }

  lemma StrandsFrom(fs: Fs, t: Target, k: nat)
    requires WellFormed(fs) && k < |Stem(t)| && DirsTo(fs, t.path, k) && !IsDir(fs, t.path[..k + 1])
    ensures Strands(fs, [], t) <==> t.path[..k + 1] !in fs && |t.path[k]| <= NAME_MAX && TooLongAfter(t, k)
  {
    hide WellFormed, TooLongAfter;
    var p := t.path;
    if Strands(fs, [], t) {
      var i: nat :| StrandsAt(fs, [], t, i);
      DirAboveDir(fs, p, i);
      assert !(i > k) && !(i < k);
    }
    NothingReached0(p[..k + 1]);
    assert p[..k + 1] !in fs && |p[k]| <= NAME_MAX && TooLongAfter(t, k) ==> StrandsAt(fs, [], t, k);
  }

  lemma NotPreparable(fs: Fs, t: Target, k: nat)
    requires k < |Stem(t)| && ((exists j :: k <= j < |Stem(t)| && |t.path[j]| > NAME_MAX) || (t.path[..k + 1] in fs && !IsDir(fs, t.path[..k + 1])))
    ensures !Preparable(fs, t)
  {
    var p := t.path;
    assert p[..k + 1] <= p && (k + 1 < |p| ==> p[..k + 1] < p) && (k + 1 == |p| ==> p[..k + 1] == p);
  }

  lemma StoppedIsBlocked(fs: Fs, nextId: nat, t: Target, r: Prepared, fs': Fs, nextId': nat, created: seq<nat>, k: nat)
    requires ValidTarget(t) && Root(fs, nextId) && r.Blocked?
    requires MadeDirectories(fs, nextId, t.path, |Stem(t)|, r, fs', nextId', created, k)
    ensures !Preparable(fs, t)
    ensures created != [] <==> Strands(fs, [], t)
  {
    hide MadeDirectories, Preparable, Strands, DirsTo;
    StoppedAt(fs, nextId, t.path, |Stem(t)|, r, fs', nextId', created, k);
    StrandsFrom(fs, t, k);
    NotPreparable(fs, t, k);
  }

  lemma ReadyFits(fs: Fs, nextId: nat, p: Path, m: nat, r: Prepared, fs': Fs, nextId': nat, created: seq<nat>, k: nat)
    requires m <= |p| && r.Ready? && MadeDirectories(fs, nextId, p, m, r, fs', nextId', created, k)
    ensures k + |created| == m && Root(fs', nextId') && DirsTo(fs, p, k) && nextId' >= nextId
    ensures created != [] ==> p[..k + 1] !in fs
    ensures forall i :: 0 <= i < m ==> |p[i]| <= NAME_MAX
    ensures ChainIntact(fs', p[..m], created)
  {
    hide Extended;
    forall i | 0 <= i < m ensures |p[i]| <= NAME_MAX {
      assert p[..m] in fs' && p[..m][i] == p[i];
    }
    forall j | 0 <= j <= m ensures IsDir(fs', p[..m][..j]) && (j > k ==> fs'[p[..m][..j]].id == created[j - 1 - k]) {
      assert p[..m][..j] == p[..j];
    }
  }

  /** The directories of `c` were had: those missing were made. */
  ghost predicate HasStem(fs: Fs, first: nat, c: Path, fs': Fs, created: seq<nat>) {
    && (forall q :: q in fs' <==> q in fs || q <= c)
    && (forall q :: q in fs ==> fs'[q] == fs[q])
    && (forall q :: q in fs && q <= c ==> IsDir(fs, q) && |q| <= |c| - |created|)
    && (forall q :: q in fs' && q !in fs ==> fs'[q].view == Dir(ROOT_0755) && fs'[q].id >= first && |q| > |c| - |created|)
  }

  lemma ReadyHasStem(fs: Fs, nextId: nat, p: Path, m: nat, fs': Fs, nextId': nat, created: seq<nat>, k: nat)
    requires m <= |p| && Root(fs, nextId) && MadeDirectories(fs, nextId, p, m, Ready, fs', nextId', created, k)
    ensures HasStem(fs, nextId, p[..m], fs', created)
  {
    hide MadeDirectories, Root;
    MadeAreMissing(fs, nextId, p, m, Ready, fs', nextId', created, k);
    ReadyFits(fs, nextId, p, m, Ready, fs', nextId', created, k);
    var c := p[..m];
    forall q | q <= c ensures q == p[..|q|] && q <= p {
    }
    forall q | q <= p && |q| <= m ensures q <= c {
    }
  }

  lemma CacheProvided(fs: Fs, nextId: nat, p: Path, fs': Fs, nextId': nat, created: seq<nat>, k: nat)
    requires ValidTarget(Target(Cache, p)) && Root(fs, nextId) && MadeDirectories(fs, nextId, p, |p|, Ready, fs', nextId', created, k)
    ensures IsDir(fs', p) && Preparable(fs, Target(Cache, p))
    ensures Provided(fs, nextId, Mount(Target(Cache, p), created, false, Inode(fs'[p].id)), fs', nextId')
  {
    hide MadeDirectories, Root, Added, Created, Missing, ChainIntact, HasStem;
    ReadyHasStem(fs, nextId, p, |p|, fs', nextId', created, k);
    ReadyFits(fs, nextId, p, |p|, Ready, fs', nextId', created, k);
    assert p[..|p|] == p;
    DeepestIsLast(fs', p, created);
    CacheMakes(fs, nextId, p, fs', Mount(Target(Cache, p), created, false, Inode(fs'[p].id)));
  }

  lemma CacheMakes(fs: Fs, first: nat, p: Path, fs': Fs, m: Mount)
    requires HasStem(fs, first, p, fs', m.created) && m.target == Target(Cache, p) && !m.targetCreated
    ensures Created(m) == Missing(fs, p) && Added(fs, first, m.target, fs')
    ensures forall q :: q in fs && q <= p ==> IsDir(fs, q)
  {
    hide Missing, Created;
    assert Stem(m.target) == p;
    assert fs'.Keys == fs.Keys + Missing(fs, p);
    assert forall q :: q in Created(m) ==> q in fs';
  }

  /** `spore_build_cache_target_prepare`. */
  method PrepareCache(fs: Fs, nextId: nat, p: Path) returns (r: Outcome, fs': Fs, nextId': nat, m: Mount)
    requires Root(fs, nextId) && ValidTarget(Target(Cache, p))
    ensures m.target == Target(Cache, p) && r != Uncertain && (r.Settled? <==> Preparable(fs, m.target))
    ensures r.Settled? ==> Provided(fs, nextId, m, fs', nextId')
    ensures !r.Settled? ==> LeftOver(fs, nextId, m, fs') && (m.created == [] <==> !Strands(fs, [], m.target))
  {
    hide MadeDirectories, Provided, Preparable, Strands, LeftOver, Root, ValidTarget;
    var t := Target(Cache, p);
    TargetIsPath(t);
    var made, created;
    made, fs', nextId', created := PrepareDirectories(fs, nextId, p, |p|);
    ghost var k: nat :| MadeDirectories(fs, nextId, p, |p|, made, fs', nextId', created, k);
    if made.Blocked? {
      StoppedIsBlocked(fs, nextId, t, made, fs', nextId', created, k);
      BlockedLeaves(fs, nextId, t, made, fs', nextId', created, k);
      return Failed, fs', nextId', Mount(t, created, false, Unknown);
    }
    CacheProvided(fs, nextId, p, fs', nextId', created, k);
    return Settled, fs', nextId', Mount(t, created, false, Inode(fs'[p].id));
  }

  lemma TargetIsPath(t: Target)
    requires ValidTarget(t)
    ensures 0 < |t.path| <= MAX_CREATED_COMPONENTS && PlainPath(t.path)
  {
  }

  /** `fs'` is `fs` with some more directories above `p`. */
  ghost predicate Strayed(fs: Fs, first: nat, p: Path, fs': Fs) {
    && WellFormed(fs') && NamesFit(fs')
    && (forall q :: q in fs ==> q in fs' && fs'[q] == fs[q])
    && (forall q :: q in fs' && q !in fs ==> q < p && IsDir(fs', q) && fs'[q].id >= first)
  }

  /** What a failed prepare leaves: some of the missing directories, none of them recorded as the target. */
  ghost predicate LeftOver(fs: Fs, first: nat, m: Mount, fs': Fs) {
    m.identity.Unknown? && Strayed(fs, first, m.target.path, fs') && (m.created == [] ==> fs' == fs) && |m.created| <= |Stem(m.target)|
  }

  lemma BlockedLeaves(fs: Fs, nextId: nat, t: Target, r: Prepared, fs': Fs, nextId': nat, created: seq<nat>, k: nat)
    requires ValidTarget(t) && Root(fs, nextId) && r.Blocked?
    requires MadeDirectories(fs, nextId, t.path, |Stem(t)|, r, fs', nextId', created, k)
    ensures LeftOver(fs, nextId, Mount(t, created, false, Unknown), fs')
  {
    MadeAreMissing(fs, nextId, t.path, |Stem(t)|, r, fs', nextId', created, k);
    assert created == [] ==> fs' == fs;
    forall q | q in fs' && q !in fs ensures q < t.path {
      PrefixCases(q, t.path);
    }
  }

  /** Rolling back what the loop over the directories made gives the tree it started from. */
  lemma RollbackRestores(fs: Fs, first: nat, c: Path, fs': Fs, created: seq<nat>)
    requires WellFormed(fs) && HasStem(fs, first, c, fs', created) && |created| <= |c|
    ensures forall j :: |c| - |created| < j <= |c| ==> OnlyChainBelow(fs', c, c[..j])
    ensures Swept(fs', c, |c| - |created|) == fs
  {
    forall j | |c| - |created| < j <= |c| ensures OnlyChainBelow(fs', c, c[..j]) {
      forall e | e in fs' && c[..j] < e ensures e <= c {
        if e in fs {
          DirAbove(fs, c[..j], e);
        }
      }
    }
    forall q | q <= c ensures q == c[..|q|] {
    }
  }

  lemma DirAbove(fs: Fs, p: Path, q: Path)
    requires WellFormed(fs) && q in fs && p < q
    ensures IsDir(fs, p)
  {
    if !IsDir(fs, p) {
      NothingBelow(fs, p, q);
    }
  }

  lemma PrefixOfParent(q: Path, p: Path)
    requires q < p
    ensures q <= Parent(p)
  {
  }

  lemma BindMakes(fs: Fs, first: nat, p: Path, fs': Fs, m: Mount)
    requires p != [] && HasStem(fs, first, Parent(p), fs', m.created) && p !in fs' && m.target == Target(Bind, p) && m.targetCreated
    ensures Created(m) == Missing(fs, p)
    ensures forall q :: q in fs && q < p ==> IsDir(fs, q)
    ensures forall id: nat :: id >= first ==> Added(fs, first, m.target, fs'[p := Node(id, File(FILE_0644, []))])
  {
    hide Missing, Created;
    assert Stem(m.target) == Parent(p);
    forall q
      ensures q in Created(m) <==> q in Missing(fs, p)
      ensures q in fs' || q == p <==> q in fs || q in Missing(fs, p)
      ensures q in fs && q < p ==> IsDir(fs, q)
    {
      if q <= p {
        PrefixCases(q, p);
        if q != p {
          PrefixOfParent(q, p);
        }
      }
    }
    forall id: nat | id >= first ensures Added(fs, first, m.target, fs'[p := Node(id, File(FILE_0644, []))]) {
      assert fs'[p := Node(id, File(FILE_0644, []))].Keys == fs.Keys + Missing(fs, p);
    }
  }

  lemma BindProvided(fs: Fs, nextId: nat, p: Path, fs': Fs, nextId': nat, created: seq<nat>, k: nat)
    requires ValidTarget(Target(Bind, p)) && Root(fs, nextId) && MadeDirectories(fs, nextId, p, |p| - 1, Ready, fs', nextId', created, k)
    requires |p[|p| - 1]| <= NAME_MAX && p !in fs'
    ensures Preparable(fs, Target(Bind, p))
    ensures Provided(fs, nextId, Mount(Target(Bind, p), created, true, Inode(nextId')), fs'[p := Node(nextId', File(FILE_0644, []))], nextId' + 1)
  {
    hide MadeDirectories, Root, OnlyName, Missing, Created, ChainIntact, Added, HasStem;
    var stem, m, fs'' := Parent(p), Mount(Target(Bind, p), created, true, Inode(nextId')), fs'[p := Node(nextId', File(FILE_0644, []))];
    ReadyHasStem(fs, nextId, p, |p| - 1, fs', nextId', created, k);
    ReadyFits(fs, nextId, p, |p| - 1, Ready, fs', nextId', created, k);
    DeepestIsLast(fs', stem, created);
    FileAdded(fs', nextId', p);
    BindMakes(fs, nextId, p, fs', m);
    StemStays(fs', fs'', stem, created);
    HadSince(fs, nextId, stem, fs', created);
  }

  lemma HadSince(fs: Fs, first: nat, c: Path, fs': Fs, created: seq<nat>)
    requires HasStem(fs, first, c, fs', created)
    ensures forall q :: q in fs ==> q in fs' && fs'[q] == fs[q]
  {
  }

  lemma StemStays(fs: Fs, fs': Fs, c: Path, ids: seq<nat>)
    requires ChainIntact(fs, c, ids) && forall q :: q in fs && q <= c ==> q in fs' && fs'[q] == fs[q]
    ensures ChainIntact(fs', c, ids)
  {
  }

  lemma FileAdded(fs: Fs, nextId: nat, p: Path)
    requires Root(fs, nextId) && p != [] && p !in fs && IsDir(fs, Parent(p)) && |p[|p| - 1]| <= NAME_MAX
    ensures Root(fs[p := Node(nextId, File(FILE_0644, []))], nextId + 1)
    ensures OnlyName(fs[p := Node(nextId, File(FILE_0644, []))], p)
  {
    var fs' := fs[p := Node(nextId, File(FILE_0644, []))];
    forall q, i | q in fs' && 0 <= i < |q| ensures |q[i]| <= NAME_MAX {
      if q == p && i < |p| - 1 {
        assert Parent(p) in fs && Parent(p)[i] == p[i];
      }
    }
  }

  lemma BindFound(fs: Fs, nextId: nat, p: Path, fs': Fs, nextId': nat, created: seq<nat>, k: nat)
    requires ValidTarget(Target(Bind, p)) && Root(fs, nextId) && MadeDirectories(fs, nextId, p, |p| - 1, Ready, fs', nextId', created, k)
    requires p in fs'
    ensures created == [] && fs' == fs && (fs[p].view.File? <==> Preparable(fs, Target(Bind, p)))
    ensures fs[p].view.File? ==> Provided(fs, nextId, Mount(Target(Bind, p), created, false, Inode(fs'[p].id)), fs', nextId')
  {
    hide MadeDirectories, WellFormed;
    ReadyHasStem(fs, nextId, p, |p| - 1, fs', nextId', created, k);
    ReadyFits(fs, nextId, p, |p| - 1, Ready, fs', nextId', created, k);
    assert p in fs;
    DirAbove(fs, Parent(p), p);
    PrefixesPresent(fs, nextId, p);
    assert fs' == fs;
    var m := Mount(Target(Bind, p), created, false, Inode(fs'[p].id));
    assert Created(m) == {} == Missing(fs, p);
  }

  lemma PrefixesPresent(fs: Fs, nextId: nat, p: Path)
    requires Root(fs, nextId) && p in fs
    ensures forall q :: q <= p ==> q in fs && (q != p ==> IsDir(fs, q))
    ensures forall i :: 0 <= i < |p| ==> |p[i]| <= NAME_MAX
  {
    PrefixesAreDirs(fs, p);
    forall q | q <= p ensures q in fs && (q != p ==> IsDir(fs, q)) {
      PrefixCases(q, p);
      assert q == p[..|q|];
    }
  }

  /** `spore_build_context_bind_target_prepare`, with the rollback of what it
      made when it fails. The rollback starts from the directory above the
      target, so it finds what was made only when all of that was. */
  method PrepareBind(fs: Fs, nextId: nat, p: Path) returns (r: Outcome, fs': Fs, nextId': nat, m: Mount)
    requires Root(fs, nextId) && ValidTarget(Target(Bind, p))
    ensures m.target == Target(Bind, p) && (r.Settled? <==> Preparable(fs, m.target)) && (r.Uncertain? <==> Strands(fs, [], m.target))
    ensures r.Settled? ==> Provided(fs, nextId, m, fs', nextId')
    ensures r.Uncertain? ==> LeftOver(fs, nextId, m, fs')
    ensures r.Failed? ==> fs' == fs
  {
    hide MadeDirectories, Provided, Preparable, Strands, LeftOver, Root, ValidTarget, HasStem, WellFormed, NamesFit, ChainIntact, OnlyChainBelow;
    var t := Target(Bind, p);
    TargetIsPath(t);
    var stem := Parent(p);
    var made, created;
    made, fs', nextId', created := PrepareDirectories(fs, nextId, p, |p| - 1);
    ghost var k: nat :| MadeDirectories(fs, nextId, p, |p| - 1, made, fs', nextId', created, k);
    MadeIsTree(fs, nextId, p, |p| - 1, made, fs', nextId', created, k);
    m := Mount(t, created, false, Unknown);
    if made.Ready? {
      FitsSoFar(fs, nextId, t, fs', nextId', created, k);
      if |p[|p| - 1]| <= NAME_MAX {
        if p !in fs' {
          BindProvided(fs, nextId, p, fs', nextId', created, k);
          return Settled, fs'[p := Node(nextId', File(FILE_0644, []))], nextId' + 1, Mount(t, created, true, Inode(nextId'));
        }
        BindFound(fs, nextId, p, fs', nextId', created, k);
        if fs'[p].view.File? {
          return Settled, fs', nextId', Mount(t, created, false, Inode(fs'[p].id));
        }
      }
    } else {
      StoppedIsBlocked(fs, nextId, t, made, fs', nextId', created, k);
      BlockedLeaves(fs, nextId, t, made, fs', nextId', created, k);
      StemMissing(fs, nextId, t, made, fs', nextId', created, k);
    }
    var undone;
    undone, fs' := RemoveCreated(fs', stem, created, Fail);
    r := if undone then Failed else Uncertain;
  }

  lemma MadeIsTree(fs: Fs, nextId: nat, p: Path, m: nat, r: Prepared, fs': Fs, nextId': nat, created: seq<nat>, k: nat)
    requires m <= |p| && MadeDirectories(fs, nextId, p, m, r, fs', nextId', created, k)
    ensures WellFormed(fs') && NamesFit(fs') && |created| <= m
  {
  }

  /** With all directories had, only the last name can be at fault, and the rollback is exact. */
  lemma FitsSoFar(fs: Fs, nextId: nat, t: Target, fs': Fs, nextId': nat, created: seq<nat>, k: nat)
    requires ValidTarget(t) && t.kind == Bind && Root(fs, nextId)
    requires MadeDirectories(fs, nextId, t.path, |t.path| - 1, Ready, fs', nextId', created, k)
    ensures !Strands(fs, [], t) && (|t.path[|t.path| - 1]| > NAME_MAX ==> !Preparable(fs, t))
    ensures var stem := Stem(t);
            && ChainIntact(fs', stem, created) && Swept(fs', stem, |stem| - |created|) == fs
            && forall j :: |stem| - |created| < j <= |stem| ==> OnlyChainBelow(fs', stem, stem[..j])
  {
    hide MadeDirectories, HasStem, OnlyChainBelow, ChainIntact;
    ReadyFits(fs, nextId, t.path, |t.path| - 1, Ready, fs', nextId', created, k);
    ReadyHasStem(fs, nextId, t.path, |t.path| - 1, fs', nextId', created, k);
    RollbackRestores(fs, nextId, Stem(t), fs', created);
  }

  lemma StemMissing(fs: Fs, nextId: nat, t: Target, r: Prepared, fs': Fs, nextId': nat, created: seq<nat>, k: nat)
    requires ValidTarget(t) && Root(fs, nextId) && r.Blocked?
    requires MadeDirectories(fs, nextId, t.path, |Stem(t)|, r, fs', nextId', created, k)
    ensures created != [] ==> Stem(t) !in fs'
    ensures created == [] ==> fs' == fs
  {
    hide MadeDirectories;
    MadeAreMissing(fs, nextId, t.path, |Stem(t)|, r, fs', nextId', created, k);
    StoppedAt(fs, nextId, t.path, |Stem(t)|, r, fs', nextId', created, k);
    assert created == [] ==> fs' == fs;
  }

  // ---- Cleaning up ----

  /** Everything at or below `q` is one of `c`. */
  ghost predicate OnlyOurs(fs: Fs, q: Path, c: set<Path>) {
    forall e :: e in fs && q <= e ==> e in c
  }

  /** `fs` without those of `c` that hold nothing else. */
  ghost function Restored(fs: Fs, c: set<Path>): Fs {
    map q | q in fs && !(q in c && OnlyOurs(fs, q, c)) :: fs[q]
  }

  /** Nothing was put under a cache target that the prepare made. */
  ghost predicate Unfilled(fs: Fs, m: Mount) {
    m.target.kind == Cache && m.created != [] ==> forall q :: q in fs ==> !(m.target.path < q)
  }

  lemma CacheRestored(fs: Fs, m: Mount)
    requires m.target.kind == Cache && !m.targetCreated && |m.created| <= |m.target.path|
    ensures Swept(fs, m.target.path, |m.target.path| - |m.created|) == Restored(fs, Created(m))
    ensures OnlyChainBelow(fs, m.target.path, m.target.path) <==> forall q :: q in fs ==> !(m.target.path < q)
  {
    hide Created;
    var c, s := m.target.path, Created(m);
    forall q | q in fs ensures q in Swept(fs, c, |c| - |m.created|) <==> q in Restored(fs, s) {
      if q in s {
        assert OnlyChainBelow(fs, c, q) <==> OnlyOurs(fs, q, s) by {
          forall e | e in fs && q <= e ensures q == e || q < e {
            PrefixCases(q, e);
          }
        }
      }
    }
  }

  /** `spore_build_cache_target_cleanup`. */
  method CleanupCache(fs: Fs, m: Mount) returns (ok: bool, fs': Fs)
    requires WellFormed(fs) && NamesFit(fs) && ValidTarget(m.target) && m.target.kind == Cache && |m.created| <= |m.target.path|
    ensures Kept(fs, m) ==> fs' == Restored(fs, Created(m)) && (ok <==> Unfilled(fs, m))
    ensures m.identity.Unknown? ==> !ok && fs' == fs
    ensures WellFormed(fs') && NamesFit(fs')
    ensures forall q :: q in fs && q !in fs' ==> IsDir(fs, q) && q <= m.target.path && fs[q].id in m.created
  {
    hide WellFormed, NamesFit, ChainIntact, Swept, Restored, Created, OnlyChainBelow, OpenReal;
    var p := m.target.path;
    if ChainIntact(fs, p, m.created) {
      DeepestIsLast(fs, p, m.created);
    }
    if m.created == [] {
      if !m.targetCreated {
        NothingToRestore(fs, m);
      }
      if p in fs {
        ParentOpens(fs, p);
      }
      var parent := OpenReal(fs, [], Parent(p));
      return parent.At? && p in fs && IsDir(fs, p) && m.identity == Inode(fs[p].id), fs;
    }
    if m.identity != Inode(m.created[|m.created| - 1]) {
      return false, fs;
    }
    if !m.targetCreated {
      CacheRestored(fs, m);
    }
    ok, fs' := RemoveCreated(fs, p, m.created, FailAtFirst);
  }

  lemma NothingToRestore(fs: Fs, m: Mount)
    requires m.created == [] && !m.targetCreated
    ensures Restored(fs, Created(m)) == fs
  {
  }

  lemma DeepestIsLast(fs: Fs, p: Path, ids: seq<nat>)
    requires ChainIntact(fs, p, ids)
    ensures IsDir(fs, p) && (ids != [] ==> fs[p].id == ids[|ids| - 1])
  {
    assert p[..|p|] == p;
  }

  lemma ParentOpens(fs: Fs, p: Path)
    requires WellFormed(fs) && NamesFit(fs) && p != [] && p in fs
    ensures OpenReal(fs, [], Parent(p)).At?
  {
    PrefixesAreDirs(fs, p);
    OpensNext(fs, p, |p| - 1);
  }

  lemma BindRestored(fs: Fs, m: Mount)
    requires WellFormed(fs) && m.target.kind == Bind && m.target.path != [] && |m.created| <= |Stem(m.target)|
    requires m.target.path in fs && fs[m.target.path].view.File? && m.targetCreated
    ensures Swept(fs - {m.target.path}, Stem(m.target), |Stem(m.target)| - |m.created|) == Restored(fs, Created(m))
    ensures forall q :: q in fs ==> !(m.target.path < q)
  {
    hide Created, WellFormed;
    var c, p, s := Stem(m.target), m.target.path, Created(m);
    forall q | q in fs ensures !(p < q) {
      if p < q {
        DirAbove(fs, p, q);
      }
    }
    var without := fs - {p};
    forall q | q in fs ensures q in Swept(without, c, |c| - |m.created|) <==> q in Restored(fs, s) {
      forall e | e in fs && q <= e ensures q == e || q < e {
        PrefixCases(q, e);
      }
      if q in s && q != p && OnlyChainBelow(without, c, q) {
        forall e | e in fs && q <= e ensures e in s {
          assert e == q || e == p || e in without;
        }
      }
      if q in s && q != p && OnlyOurs(fs, q, s) {
        assert forall e :: e in without && q < e ==> e in s;
      }
    }
  }

  lemma LeafRemoved(fs: Fs, p: Path)
    requires WellFormed(fs) && NamesFit(fs) && p != [] && p in fs && !IsDir(fs, p)
    ensures WellFormed(fs - {p}) && NamesFit(fs - {p})
  {
    var m := fs - {p};
    forall q | q in m && q != [] ensures IsDir(m, Parent(q)) {
      assert IsDir(fs, Parent(q));
    }
  }

  /** `spore_build_context_bind_target_cleanup`. */
  method CleanupBind(fs: Fs, m: Mount) returns (ok: bool, fs': Fs)
    requires WellFormed(fs) && NamesFit(fs) && ValidTarget(m.target) && m.target.kind == Bind && |m.created| <= |Stem(m.target)|
    ensures Kept(fs, m) ==> fs' == Restored(fs, Created(m)) && ok
    ensures m.identity.Unknown? ==> !ok && fs' == fs
    ensures var p := m.target.path;
            p !in fs || !fs[p].view.File? || m.identity != Inode(fs[p].id) || (m.targetCreated && (fs[p].view.data != [] || !OnlyName(fs, p))) ==>
              !ok && fs' == fs
    ensures WellFormed(fs') && NamesFit(fs')
  {
    hide WellFormed, NamesFit, ChainIntact, Swept, Restored, Created, OnlyChainBelow, OpenReal, OnlyName, SweepsWell, ValidTarget, Unfilled;
    TargetIsPath(m.target);
    var p := m.target.path;
    if p in fs {
      ParentOpens(fs, p);
    }
    var parent := OpenReal(fs, [], Parent(p));
    if parent.Fails? || p !in fs || !fs[p].view.File? || m.identity != Inode(fs[p].id) {
      return false, fs;
    }
    if !m.targetCreated {
      if m.created == [] {
        NothingToRestore(fs, m);
      }
      return m.created == [], fs;
    }
    if fs[p].view.data != [] || !OnlyName(fs, p) {
      return false, fs;
    }
    ok, fs' := RemoveBindFile(fs, m);
  }

  /** The file that was made for the bind goes, and then the directories made for it. */
  method RemoveBindFile(fs: Fs, m: Mount) returns (ok: bool, fs': Fs)
    requires WellFormed(fs) && NamesFit(fs) && m.target.kind == Bind && m.target.path != [] && |m.created| <= |Stem(m.target)|
    requires m.target.path in fs && fs[m.target.path].view.File? && m.targetCreated
    ensures ChainIntact(fs, Stem(m.target), m.created) ==> fs' == Restored(fs, Created(m)) && ok
    ensures WellFormed(fs') && NamesFit(fs')
  {
    hide WellFormed, NamesFit, ChainIntact, Swept, Restored, Created, OnlyChainBelow, OpenReal, SweepsWell;
    LeafRemoved(fs, m.target.path);
    BindRestored(fs, m);
    if ChainIntact(fs, Stem(m.target), m.created) {
      StemWithoutTarget(fs, m);
    }
    ok, fs' := RemoveCreated(fs - {m.target.path}, Stem(m.target), m.created, Stop);
  }

  lemma StemWithoutTarget(fs: Fs, m: Mount)
    requires m.target.kind == Bind && m.target.path != [] && ChainIntact(fs, Stem(m.target), m.created)
    ensures ChainIntact(fs - {m.target.path}, Stem(m.target), m.created)
    ensures SweepsWell(fs - {m.target.path}, Stem(m.target), m.created, Stop)
  {
    hide ChainIntact;
    StemStays(fs, fs - {m.target.path}, Stem(m.target), m.created);
    ChainFits(fs, Stem(m.target), m.created);
  }

  lemma ChainFits(fs: Fs, c: Path, ids: seq<nat>)
    requires ChainIntact(fs, c, ids)
    ensures |ids| <= |c|
  {
  }
}
