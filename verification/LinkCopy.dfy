/** `COPY` with the LINK destination policy (guest/minimal-initrd/build_copy.c,
    `spore_build_copy_apply` and what it calls). */
module LinkCopy {
  import opened Tree
  import opened PathText
  import opened ConfinedWalk
  import opened Rootfs
  import opened LinkLayer

  const MAX_ENTRIES := 65536
  const MAX_REMOVAL_DEPTH := MAX_COPY_PATH_LEN / 2

  datatype Outcome =
    | Success
    | TooManyEntries
    | PathTooLong
    | BadTarget
    | LongName
    | Unsupported
    | RemovalTooLarge
    | RemovalTooDeep
    | BadRequest
    | NoTarget
    | Unresolved(error: Error)
    | WrongCount
  datatype Option<T> = None | Some(value: T)

  function Without(fs: Fs, p: Path): (m: Fs)
    ensures forall q :: q in m <==> q in fs && !(p <= q)
    ensures forall q :: q in m ==> m[q] == fs[q]
  {
    map q | q in fs && !(p <= q) :: fs[q]
  }

  /** What is left of `fs` once the children of `p` in `names` are gone. */
  ghost function WithoutChildren(fs: Fs, p: Path, names: set<Name>): (m: Fs)
    ensures forall q :: q in m <==> q in fs && !(p < q && q[|p|] in names)
    ensures forall q :: q in m ==> m[q] == fs[q]
  {
    map q | q in fs && !(p < q && q[|p|] in names) :: fs[q]
  }

  lemma SubsetIsSmaller<T>(a: set<T>, b: set<T>)
    requires a <= b
    ensures |a| <= |b|
  {
    assert (b - a) + a == b;
  }

  lemma WithoutKeepsWellFormed(fs: Fs, p: Path)
    requires WellFormed(fs) && p != []
    ensures WellFormed(Without(fs, p))
  {
    forall q | q in Without(fs, p) && q != [] ensures IsDir(Without(fs, p), Parent(q)) {
      assert p <= Parent(q) ==> p <= q;
    }
  }

  /** Removing child `n` after the children in `names`. */
  lemma OneMoreChild(fs: Fs, p: Path, names: set<Name>, n: Name)
    ensures Without(WithoutChildren(fs, p, names), p + [n]) == WithoutChildren(fs, p, names + {n})
    ensures n !in names ==> AtOrBelow(WithoutChildren(fs, p, names), p + [n]) == AtOrBelow(fs, p + [n])
  {
    forall q ensures p + [n] <= q <==> p < q && q[|p|] == n {
      if p < q && q[|p|] == n {
        assert q[..|p| + 1] == p + [n];
      }
    }
  }

  ghost function Counted(fs: Fs, p: Path, names: set<Name>): (s: set<Path>)
    ensures forall q :: q in s <==> q == p || (q in fs && p < q && q[|p|] in names)
  {
    {p} + set q | q in fs && p < q && q[|p|] in names
  }

  lemma CountedGrows(fs: Fs, p: Path, names: set<Name>, n: Name)
    requires n !in names && p in fs
    ensures Counted(fs, p, names + {n}) == Counted(fs, p, names) + AtOrBelow(fs, p + [n])
    ensures Counted(fs, p, names) !! AtOrBelow(fs, p + [n])
    ensures Counted(fs, p, names) + AtOrBelow(fs, p + [n]) <= AtOrBelow(fs, p)
  {
    forall q ensures p + [n] <= q <==> p < q && q[|p|] == n {
      if p < q && q[|p|] == n {
        assert q[..|p| + 1] == p + [n];
      }
    }
  }

  /** Once every child is gone, so is everything below. */
  lemma AllChildren(fs: Fs, p: Path, names: set<Name>)
    requires WellFormed(fs) && p in fs && p != []
    requires forall n {:trigger p + [n]} :: p + [n] in fs ==> n in names
    ensures WithoutChildren(fs, p, names) - {p} == Without(fs, p)
    ensures Counted(fs, p, names) == AtOrBelow(fs, p)
  {
    forall q | q in fs && p < q ensures q[|p|] in names {
      BelowSomeChild(fs, p, q);
    }
    forall q | q in fs && p <= q ensures q == p || p < q {
      PrefixCases(p, q);
    }
    assert (WithoutChildren(fs, p, names) - {p}).Keys == Without(fs, p).Keys;
  }

  lemma OnlyItself(fs: Fs, p: Path)
    requires WellFormed(fs) && !IsDir(fs, p)
    ensures AtOrBelow(fs, p) == if p in fs then {p} else {}
    ensures Without(fs, p) == fs - {p}
  {
    forall q | q in fs && p <= q ensures q == p {
      PrefixCases(p, q);
      if p < q {
        NothingBelow(fs, p, q);
      }
    }
  }

  /** None of the paths is deeper than the removal goes, counted from `p` at `depth`. */
  ghost predicate Shallow(qs: set<Path>, p: Path, depth: nat) {
    forall q :: q in qs ==> depth + |q| - |p| <= MAX_REMOVAL_DEPTH
  }

  /** `remove_destination_tree_at`: everything at or below `p` goes, whatever
      order the directory lists its entries in. `gone` is what was counted. */
  method RemoveTree(fs: Fs, p: Path, depth: nat, removed: nat)
    returns (r: Outcome, fs': Fs, removed': nat, ghost gone: set<Path>)
    requires WellFormed(fs) && depth < |p| && (depth > 0 ==> p in fs)
    ensures r.Success? || r.RemovalTooLarge? || r.RemovalTooDeep?
    ensures gone <= AtOrBelow(fs, p)
    ensures r.Success? ==> fs' == Without(fs, p) && gone == AtOrBelow(fs, p) && removed' == removed + |gone|
    ensures r.RemovalTooLarge? ==> removed + |gone| > MAX_ENTRIES
    ensures r.RemovalTooDeep? ==> exists q :: q in AtOrBelow(fs, p) && depth + |q| - |p| > MAX_REMOVAL_DEPTH
    ensures r.Success? ==> (removed' == removed || removed' <= MAX_ENTRIES) && Shallow(AtOrBelow(fs, p), p, depth)
    decreases AtOrBelow(fs, p), 1
  {
    fs', removed', gone := fs, removed, {};
    if depth > MAX_REMOVAL_DEPTH {
      r := RemovalTooDeep;
      return;
    }
    if p !in fs {
      OnlyItself(fs, p);
      r := Success;
      return;
    }
    gone := {p};
    if removed >= MAX_ENTRIES {
      r := RemovalTooLarge;
      return;
    }
    if !fs[p].view.Dir? {
      OnlyItself(fs, p);
      r, fs', removed' := Success, fs - {p}, removed + 1;
      return;
    }
    r, fs', removed', gone := RemoveChildren(fs, p, depth, removed + 1);
  }

  /** The directory case of `remove_destination_tree_at`, entered with `p` itself counted. */
  method RemoveChildren(fs: Fs, p: Path, depth: nat, removed: nat)
    returns (r: Outcome, fs': Fs, removed': nat, ghost gone: set<Path>)
    requires WellFormed(fs) && depth < |p| && p in fs && 0 < removed <= MAX_ENTRIES && depth <= MAX_REMOVAL_DEPTH
    ensures r.Success? || r.RemovalTooLarge? || r.RemovalTooDeep?
    ensures gone <= AtOrBelow(fs, p)
    ensures r.Success? ==> fs' == Without(fs, p) && gone == AtOrBelow(fs, p) && removed' == removed - 1 + |gone|
    ensures r.RemovalTooLarge? ==> removed - 1 + |gone| > MAX_ENTRIES
    ensures r.RemovalTooDeep? ==> exists q :: q in AtOrBelow(fs, p) && depth + |q| - |p| > MAX_REMOVAL_DEPTH
    ensures r.Success? ==> removed' <= MAX_ENTRIES && Shallow(AtOrBelow(fs, p), p, depth)
    decreases AtOrBelow(fs, p), 0, 1
  {
    r, fs', removed', gone := Success, fs, removed, {p};
    var names := ListDirectory(fs, p);
    ghost var done: set<Name> := {};
    while names != {}
      invariant names !! done && forall n {:trigger p + [n]} :: p + [n] in fs <==> n in names || n in done
      invariant r.Success? && fs' == WithoutChildren(fs, p, done) && WellFormed(fs')
      invariant gone == Counted(fs, p, done) && removed' == removed - 1 + |gone| <= MAX_ENTRIES && Shallow(gone, p, depth)
      decreases names
    {
      var n :| n in names;
      assert p + [n] in fs;
      r, fs', removed', gone := RemoveChild(fs, p, depth, fs', removed', n, done);
      if !r.Success? {
        return;
      }
      CountedGrows(fs, p, done, n);
      names, done := names - {n}, done + {n};
    }
    AllChildren(fs, p, done);
    fs' := fs' - {p};
  }

  /** One turn of that loop: child `n` goes, after the children in `done`. */
  method RemoveChild(ghost fs: Fs, p: Path, depth: nat, left: Fs, removed: nat, n: Name, ghost done: set<Name>)
    returns (r: Outcome, left': Fs, removed': nat, ghost gone: set<Path>)
    requires WellFormed(fs) && depth < |p| && p in fs && p + [n] in fs && n !in done
    requires left == WithoutChildren(fs, p, done) && WellFormed(left)
    ensures r.Success? || r.RemovalTooLarge? || r.RemovalTooDeep?
    ensures gone <= AtOrBelow(fs, p)
    ensures r.Success? ==>
              && left' == WithoutChildren(fs, p, done + {n}) && WellFormed(left')
              && gone == Counted(fs, p, done + {n}) && removed' == removed - |Counted(fs, p, done)| + |gone|
    ensures r.RemovalTooLarge? ==> removed - |Counted(fs, p, done)| + |gone| > MAX_ENTRIES
    ensures r.RemovalTooDeep? ==> exists q :: q in AtOrBelow(fs, p) && depth + |q| - |p| > MAX_REMOVAL_DEPTH
    ensures r.Success? ==> (removed <= MAX_ENTRIES ==> removed' <= MAX_ENTRIES) && Shallow(AtOrBelow(fs, p + [n]), p, depth)
    decreases AtOrBelow(fs, p), 0, 0
  {
    ChildStep(fs, p, done, n);
    ghost var lost;
    r, left', removed', lost := RemoveTree(left, p + [n], depth + 1, removed);
    DisjointSum(Counted(fs, p, done), lost);
    gone := Counted(fs, p, done) + lost;
  }

  lemma DisjointSum<T>(a: set<T>, b: set<T>)
    requires a !! b
    ensures |a + b| == |a| + |b|
  {
  }

  /** Removing child `n` after the children in `done`: what goes, and what that leaves. */
  lemma ChildStep(fs: Fs, p: Path, done: set<Name>, n: Name)
    requires WellFormed(fs) && WellFormed(WithoutChildren(fs, p, done))
    requires n !in done && p in fs && p + [n] in fs
    ensures var left, child := WithoutChildren(fs, p, done), p + [n];
            && child in left && WellFormed(Without(left, child))
            && Without(left, child) == WithoutChildren(fs, p, done + {n})
            && AtOrBelow(left, child) == AtOrBelow(fs, child) < AtOrBelow(fs, p)
            && Counted(fs, p, done) + AtOrBelow(fs, child) == Counted(fs, p, done + {n}) <= AtOrBelow(fs, p)
            && Counted(fs, p, done) !! AtOrBelow(fs, child)
  {
    OneMoreChild(fs, p, done, n);
    CountedGrows(fs, p, done, n);
    WithoutKeepsWellFormed(WithoutChildren(fs, p, done), p + [n]);
    assert p in AtOrBelow(fs, p) && p !in AtOrBelow(fs, p + [n]);
    assert Counted(fs, p, done + {n}) <= AtOrBelow(fs, p);
  }

  // ---- The copy ----

  /** What is asked for: the tree at `top` of `src`, at most `limit` entries of it, at `dest`. */
  datatype Job = Job(src: Fs, nlink: map<nat, nat>, limit: nat, top: Path, dest: Path)

  /** The root being written and `struct copy_tree_state`: `table` pairs a source
      inode with the destination file kept open for it. */
  datatype State = State(dst: Fs, nextId: nat, seen: nat, removed: nat, table: seq<(nat, Node)>, capacity: nat)

  /** The destination file a source inode became, and the source path it was first met at. */
  datatype Twin = Twin(first: Path, node: Node)

  /** The history of a copy: the root as it was found, what is still there of
      it, what is still to be copied, and for each destination file written the
      source file it came from. */
  datatype Trace = Trace(base: Fs, firstId: nat, standing: set<Path>, ahead: set<Path>, origin: map<Path, Path>, twin: map<nat, Twin>)

  /** The source root: plain names, one view per inode, and link counts that cover its hard links. */
  ghost predicate SourceTree(job: Job) {
    && WellFormed(job.src) && job.top in job.src && job.limit <= MAX_ENTRIES
    && (forall p :: p in job.src ==> PlainPath(p) && job.src[p].id in job.nlink)
    && (forall p, q :: p in job.src && q in job.src && p != q && job.src[p].view.File? && job.src[q].view.File?
                       && job.src[p].id == job.src[q].id ==>
          job.src[p].view == job.src[q].view && job.nlink[job.src[p].id] >= 2)
  }

  ghost predicate Budgeted(job: Job, st: State, tr: Trace) {
    && tr.standing <= st.dst.Keys && tr.standing <= tr.base.Keys && st.removed + |tr.standing| <= |tr.base|
    && tr.ahead <= AtOrBelow(job.src, job.top) && st.seen + |tr.ahead| == |AtOrBelow(job.src, job.top)|
    && st.seen <= job.limit && st.removed <= MAX_ENTRIES
  }

  /** Each destination file written is the file its source inode became, and
      different source inodes became different files, all of them new. */
  ghost predicate Tracks(job: Job, st: State, tr: Trace) {
    && tr.firstId <= st.nextId
    && (forall i :: i in tr.twin ==>
          && tr.firstId <= tr.twin[i].node.id < st.nextId
          && tr.twin[i].first in job.src && tr.twin[i].first !in tr.ahead && job.src[tr.twin[i].first].id == i
          && job.src[tr.twin[i].first].view.File? && tr.twin[i].node.view == Copied(job.src[tr.twin[i].first].view))
    && (forall i, j :: i in tr.twin && j in tr.twin && tr.twin[i].node.id == tr.twin[j].node.id ==> i == j)
    && (forall p :: p in tr.origin ==>
          && p in st.dst && tr.origin[p] in job.src && job.src[tr.origin[p]].view.File?
          && job.src[tr.origin[p]].id in tr.twin && st.dst[p] == tr.twin[job.src[tr.origin[p]].id].node)
  }

  ghost predicate Listed(table: seq<(nat, Node)>, id: nat) {
    exists k :: 0 <= k < |table| && table[k].0 == id
  }

  /** The table holds exactly the copied inodes with more than one link. */
  ghost predicate TableOk(job: Job, st: State, tr: Trace) {
    && |st.table| <= st.seen && |st.table| <= st.capacity <= MAX_ENTRIES
    && (forall k :: 0 <= k < |st.table| ==> st.table[k].0 in tr.twin && st.table[k].1 == tr.twin[st.table[k].0].node)
    && (forall i :: i in tr.twin && i in job.nlink && job.nlink[i] >= 2 ==> Listed(st.table, i))
  }

  ghost predicate Valid(job: Job, st: State, tr: Trace) {
    SourceTree(job) && WellFormed(st.dst) && Budgeted(job, st, tr) && Tracks(job, st, tr) && TableOk(job, st, tr)
  }

  /** Why a copy that did not succeed could not. */
  ghost predicate Why(job: Job, base: Fs, r: Outcome) {
    match r
    case Success => true
    case TooManyEntries => |AtOrBelow(job.src, job.top)| > job.limit
    case PathTooLong =>
      exists q :: q in job.src && job.top <= q && |Spelled(Back(job.dest, job.top, q))| > MAX_COPY_PATH_LEN
    case BadTarget =>
      exists q :: q in job.src && job.top <= q && job.src[q].view.Link?
                  && !(0 < |job.src[q].view.target| <= MAX_COPY_PATH_LEN)
    case LongName =>
      || (exists i :: 0 <= i < |job.dest| && |job.dest[i]| > NAME_MAX)
      || exists q :: q in job.src && job.top < q && |q[|q| - 1]| > NAME_MAX
    case Unsupported => exists q :: q in job.src && job.top <= q && job.src[q].view.Special?
    case RemovalTooLarge => |base| > MAX_ENTRIES
    case RemovalTooDeep => exists p :: p in base && |p| > MAX_REMOVAL_DEPTH
    case _ => false
  }

  /** The entry `q` can be written: a name the kernel takes, nothing but a file, a
      directory or a link with a target that fits, and a path that fits. */
  ghost predicate EntryWritable(job: Job, q: Path)
    requires q in job.src && q != [] && job.top <= q
  {
    && |q[|q| - 1]| <= NAME_MAX && !job.src[q].view.Special?
    && (job.src[q].view.Link? ==> 0 < |job.src[q].view.target| <= MAX_COPY_PATH_LEN)
    && |Spelled(Back(job.dest, job.top, q))| <= MAX_COPY_PATH_LEN
  }

  ghost predicate WritableBelow(job: Job, s: Path) {
    forall q :: q in job.src && s < q && job.top <= q ==> EntryWritable(job, q)
  }

  ghost predicate ChildrenWritable(job: Job, s: Path, names: set<Name>)
    requires job.top <= s
  {
    forall n :: n in names && s + [n] in job.src ==> EntryWritable(job, s + [n]) && WritableBelow(job, s + [n])
  }

  lemma AllWritable(job: Job, s: Path, names: set<Name>)
    requires WellFormed(job.src) && job.top <= s && ChildrenWritable(job, s, names)
    requires forall n {:trigger s + [n]} :: s + [n] in job.src ==> n in names
    ensures WritableBelow(job, s)
  {
    hide EntryWritable;
    forall q | q in job.src && s < q && job.top <= q ensures EntryWritable(job, q) {
      BelowSomeChild(job.src, s, q);
      PrefixCases(s + [q[|s|]], q);
    }
  }

  lemma NoneWritten(job: Job, s: Path)
    requires job.top <= s
    ensures ChildrenWritable(job, s, {})
  {
  }

  lemma OneMoreWritable(job: Job, s: Path, names: set<Name>, n: Name)
    requires job.top <= s && ChildrenWritable(job, s, names)
    requires s + [n] in job.src ==> EntryWritable(job, s + [n]) && WritableBelow(job, s + [n])
    ensures ChildrenWritable(job, s, names + {n})
  {
    hide EntryWritable, WritableBelow;
  }

  /** A name that is too long where `s` goes is one of the destination or of the source. */
  lemma LongIsLong(job: Job, base: Fs, s: Path)
    requires s in job.src && job.top <= s
    ensures var d := Back(job.dest, job.top, s); d != [] && |d[|d| - 1]| > NAME_MAX ==> Why(job, base, LongName)
  {
    if s == job.top {
      assert Back(job.dest, job.top, s) == job.dest;
    } else {
      PrefixCases(job.top, s);
      var d := Back(job.dest, job.top, s);
      assert d[|d| - 1] == s[|s| - 1];
    }
  }

  lemma SpecialBelow(job: Job, base: Fs, s: Path)
    requires s in job.src && job.top <= s && job.src[s].view.Special?
    ensures Why(job, base, Unsupported)
  {
  }

  lemma PrefixIsLong(job: Job, base: Fs, j: nat)
    requires j < |job.dest|
    ensures var d := job.dest[..j + 1]; d[|d| - 1] == job.dest[j] && (|job.dest[j]| > NAME_MAX ==> Why(job, base, LongName))
  {
  }

  lemma SuccessIsFine(job: Job, base: Fs)
    ensures Why(job, base, Success)
  {
  }

  lemma ValidTrees(job: Job, st: State, tr: Trace)
    requires Valid(job, st, tr)
    ensures WellFormed(job.src) && WellFormed(st.dst)
  {
  }

  /** Everything the copy has to write can be written. */
  ghost predicate Writable(job: Job)
    requires job.top in job.src
  {
    && (forall i :: 0 <= i < |job.dest| ==> |job.dest[i]| <= NAME_MAX) && WritableBelow(job, job.top) && !job.src[job.top].view.Special?
    && |AtOrBelow(job.src, job.top)| <= job.limit
  }

  /** Nothing at or below `d` has been written yet. */
  ghost predicate Untouched(st: State, tr: Trace, d: Path) {
    && (forall p :: p in st.dst && d <= p ==> p in tr.standing)
    && (forall p :: p in tr.origin ==> !(d <= p))
  }

  /** Tracking survives a change to the root away from the files written. */
  lemma ValidAfter(job: Job, st: State, st': State, tr: Trace, tr': Trace)
    requires Valid(job, st, tr) && WellFormed(st'.dst) && Budgeted(job, st', tr')
    requires st' == st.(dst := st'.dst, nextId := st'.nextId, removed := st'.removed) && st.nextId <= st'.nextId
    requires tr' == tr.(standing := tr'.standing)
    requires forall p :: p in tr.origin && p in st.dst ==> p in st'.dst && st'.dst[p] == st.dst[p]
    ensures Valid(job, st', tr')
  {
  }

  /** `remove_destination_tree_at` on the root. */
  method Remove(job: Job, st: State, ghost tr: Trace, d: Path) returns (r: Outcome, st': State, ghost tr': Trace)
    requires Valid(job, st, tr) && d != [] && Untouched(st, tr, d)
    ensures Why(job, tr.base, r)
    ensures r.Success? ==>
              && Valid(job, st', tr') && tr' == tr.(standing := tr.standing - AtOrBelow(st.dst, d))
              && st' == st.(dst := Without(st.dst, d), removed := st.removed + |AtOrBelow(st.dst, d)|)
  {
    ghost var gone;
    var dst, removed;
    r, dst, removed, gone := RemoveTree(st.dst, d, 0, st.removed);
    SubsetIsSmaller(gone, tr.standing);
    st' := st.(dst := dst, removed := removed);
    tr' := tr.(standing := tr.standing - gone);
    if r.Success? {
      WithoutKeepsWellFormed(st.dst, d);
      ValidAfter(job, st, st', tr, tr');
    }
  }

  /** `prepare_overwrite_path`: nothing is left at or below `d`. */
  method Clear(job: Job, st: State, ghost tr: Trace, d: Path) returns (r: Outcome, st': State, ghost tr': Trace)
    requires Valid(job, st, tr) && d != [] && DirsAbove(st.dst, d) && PlainPath(d) && Untouched(st, tr, d)
    ensures Why(job, tr.base, r)
    ensures r.Success? ==>
              && Valid(job, st', tr') && tr' == tr.(standing := tr.standing - AtOrBelow(st.dst, d))
              && st' == st.(dst := Without(st.dst, d), removed := if IsDir(st.dst, d) then st.removed + |AtOrBelow(st.dst, d)| else st.removed)
  {
    if !IsDir(st.dst, d) {
      // Missing, or one entry to unlink.
      OnlyItself(st.dst, d);
      WithoutKeepsWellFormed(st.dst, d);
      SubsetIsSmaller(tr.standing - AtOrBelow(st.dst, d), tr.standing);
      r, st' := Success, st.(dst := st.dst - {d});
      tr' := tr.(standing := tr.standing - AtOrBelow(st.dst, d));
      ValidAfter(job, st, st', tr, tr');
    } else {
      r, st', tr' := Remove(job, st, tr, d);
    }
  }

  // ---- Writing one entry is stacking a one-entry layer ----

  lemma WritingKeepsWellFormed(fs: Fs, d: Path, node: Node)
    requires WellFormed(fs) && (d == [] || IsDir(fs, Parent(d))) && (node.view.Dir? || (d != [] && d !in fs))
    ensures WellFormed(fs[d := node])
  {
    var fs' := fs[d := node];
    forall p | p in fs' && p != [] ensures IsDir(fs', Parent(p)) {
      assert p != d ==> IsDir(fs, Parent(p));
      assert Parent(p) == d ==> d in fs || p !in fs;
    }
  }

  /** Writing an entry that is no directory where nothing else is left. */
  lemma WritingLeafIsOverlay(fs: Fs, d: Path, node: Node)
    requires !node.view.Dir?
    ensures Erase(Without(fs, d)[d := node]) == Overlay(Erase(fs), map[d := node.view])
    ensures SameElsewhere(fs, Without(fs, d)[d := node], d)
  {
    var fs', layer := Without(fs, d)[d := node], map[d := node.view];
    forall p ensures p in Erase(fs') <==> p in Overlay(Erase(fs), layer) {
      if d <= p {
        PrefixCases(d, p);
        if d < p {
          assert p[..|d|] == d && Shadowed(layer, p);
        }
      } else {
        assert !Shadowed(layer, p);
      }
    }
    assert Erase(fs').Keys == Overlay(Erase(fs), layer).Keys;
  }

  lemma WritingDirIsOverlay(fs: Fs, d: Path, node: Node)
    requires node.view.Dir?
    ensures Erase(fs[d := node]) == Overlay(Erase(fs), map[d := node.view])
    ensures SameElsewhere(fs, fs[d := node], d)
  {
    var layer := map[d := node.view];
    forall p ensures !Shadowed(layer, p) {
    }
    assert Erase(fs[d := node]).Keys == Overlay(Erase(fs), layer).Keys;
  }

  /** The two trees are the same away from `d`. */
  ghost predicate SameElsewhere(a: Fs, b: Fs, d: Path) {
    forall p :: !(d <= p) ==> (p in a <==> p in b) && (p in a ==> a[p] == b[p])
  }

  // ---- Hard links ----

  /** The search of `apply_existing_hardlink`. */
  method FindLink(table: seq<(nat, Node)>, id: nat) returns (r: Option<Node>)
    ensures r.Some? ==> exists k :: 0 <= k < |table| && table[k] == (id, r.value)
    ensures r.None? ==> !Listed(table, id)
  {
    for k := 0 to |table|
      invariant forall j :: 0 <= j < k ==> table[j].0 != id
    {
      if table[k].0 == id {
        assert table[k] == (id, table[k].1);
        return Some(table[k].1);
      }
    }
    return None;
  }

  /** `record_hardlink` when there is more than one link: the table doubles up to one slot an entry. */
  method Record(st: State, id: nat, node: Node) returns (ok: bool, st': State)
    requires |st.table| <= st.capacity <= MAX_ENTRIES
    ensures ok <==> |st.table| < MAX_ENTRIES
    ensures ok ==> st' == st.(table := st.table + [(id, node)], capacity := st'.capacity) && |st'.table| <= st'.capacity <= MAX_ENTRIES
  {
    st' := st;
    if |st.table| >= st.capacity {
      if st.capacity >= MAX_ENTRIES {
        return false, st;
      }
      var next := if st.capacity == 0 then 8 else st.capacity * 2;
      st' := st'.(capacity := if next > MAX_ENTRIES then MAX_ENTRIES else next);
    }
    return true, st'.(table := st.table + [(id, node)]);
  }

  /** A file linked to one written before. */
  ghost predicate LinkedTo(job: Job, st: State, tr: Trace, s: Path, d: Path, st': State, tr': Trace)
    requires s in job.src && job.src[s].id in tr.twin
  {
    && st' == st.(dst := st.dst[d := tr.twin[job.src[s].id].node])
    && tr' == tr.(origin := tr.origin[d := s])
  }

  lemma TracksLinked(job: Job, st: State, tr: Trace, s: Path, d: Path, st': State, tr': Trace)
    requires Tracks(job, st, tr) && s in job.src && job.src[s].view.File? && job.src[s].id in tr.twin
    requires d !in st.dst && d !in tr.origin && LinkedTo(job, st, tr, s, d, st', tr')
    ensures Tracks(job, st', tr')
  {
  }

  /** Source paths with one inode have one view, and an inode met before has more than one link. */
  lemma SameInode(job: Job, p: Path, q: Path)
    requires SourceTree(job) && p in job.src && q in job.src && job.src[p].id == job.src[q].id
    requires job.src[p].view.File? && job.src[q].view.File?
    ensures job.src[p].view == job.src[q].view && (p != q ==> job.nlink[job.src[p].id] >= 2)
  {
  }

  lemma ValidLinked(job: Job, st: State, tr: Trace, s: Path, d: Path, st': State, tr': Trace)
    requires Valid(job, st, tr) && s in job.src && job.src[s].view.File? && job.src[s].id in tr.twin
    requires d !in st.dst && d !in tr.origin && LinkedTo(job, st, tr, s, d, st', tr')
    requires WellFormed(st'.dst)
    ensures Valid(job, st', tr')
  {
    hide WellFormed, SourceTree, Tracks, TableOk;
    TracksLinked(job, st, tr, s, d, st', tr');
    SameTable(job, st, tr, st', tr');
  }

  lemma SameTable(job: Job, st: State, tr: Trace, st': State, tr': Trace)
    requires TableOk(job, st, tr) && st'.table == st.table && st'.seen >= st.seen && st'.capacity == st.capacity && tr'.twin == tr.twin
    ensures TableOk(job, st', tr')
  {
  }

  /** A file written anew. */
  ghost predicate Created(job: Job, st: State, tr: Trace, s: Path, d: Path, st': State, tr': Trace)
    requires s in job.src && job.src[s].id in job.nlink
  {
    var id, node := job.src[s].id, Node(st.nextId, Copied(job.src[s].view));
    && st'.dst == st.dst[d := node] && st'.nextId == st.nextId + 1 && st'.seen == st.seen && st'.removed == st.removed
    && tr' == tr.(origin := tr.origin[d := s], twin := tr.twin[id := Twin(s, node)])
    && st'.table == (if job.nlink[id] >= 2 then st.table + [(id, node)] else st.table)
    && |st'.table| <= st'.capacity <= MAX_ENTRIES
  }

  lemma TracksCreated(job: Job, st: State, tr: Trace, s: Path, d: Path, st': State, tr': Trace)
    requires Tracks(job, st, tr) && s in job.src && s !in tr.ahead && job.src[s].view.File? && job.src[s].id !in tr.twin
    requires job.src[s].id in job.nlink && d !in st.dst && d !in tr.origin && Created(job, st, tr, s, d, st', tr')
    ensures Tracks(job, st', tr')
  {
  }

  lemma TableCreated(job: Job, st: State, tr: Trace, s: Path, d: Path, st': State, tr': Trace)
    requires TableOk(job, st, tr) && s in job.src && job.src[s].id in job.nlink && job.src[s].id !in tr.twin
    requires |st.table| < st.seen && Created(job, st, tr, s, d, st', tr')
    ensures TableOk(job, st', tr')
  {
    forall i | i in tr'.twin && i in job.nlink && job.nlink[i] >= 2 ensures Listed(st'.table, i) {
      if i in tr.twin {
        var k :| 0 <= k < |st.table| && st.table[k].0 == i;
        assert st'.table[k].0 == i;
      } else {
        assert st'.table[|st.table|].0 == i;
      }
    }
  }

  lemma ValidCreated(job: Job, st: State, tr: Trace, s: Path, d: Path, st': State, tr': Trace)
    requires Valid(job, st, tr) && s in job.src && s !in tr.ahead && job.src[s].view.File? && job.src[s].id !in tr.twin
    requires job.src[s].id in job.nlink
    requires d !in st.dst && d !in tr.origin && |st.table| < st.seen && Created(job, st, tr, s, d, st', tr')
    requires WellFormed(st'.dst)
    ensures Valid(job, st', tr')
  {
    hide WellFormed, SourceTree, Tracks, TableOk;
    TracksCreated(job, st, tr, s, d, st', tr');
    TableCreated(job, st, tr, s, d, st', tr');
  }

  // ---- Copying a tree ----

  /** The histories are the same away from source `s` and destination `d`. */
  ghost predicate Kept(tr: Trace, tr': Trace, s: Path, d: Path) {
    && tr'.base == tr.base && tr'.firstId == tr.firstId
    && (forall p :: p in tr'.standing && !(d <= p) ==> p in tr.standing)
    && (forall p :: p in tr.standing && !(d <= p) ==> p in tr'.standing)
    && (forall q :: q in tr.ahead && !(s <= q) ==> q in tr'.ahead)
    && (forall q :: q in tr'.ahead ==> q in tr.ahead && !(s <= q))
    && (forall p :: p in tr.origin && !(d <= p) ==> p in tr'.origin && tr'.origin[p] == tr.origin[p])
    && (forall p :: p in tr'.origin && !(d <= p) ==> p in tr.origin)
  }

  /** The files written at or below `d` are the images of the files at or below `s`. */
  ghost predicate FilesFrom(job: Job, tr: Trace, s: Path, d: Path) {
    forall p :: d <= p ==>
      && (p in tr.origin <==> Back(s, d, p) in job.src && job.src[Back(s, d, p)].view.File?)
      && (p in tr.origin ==> tr.origin[p] == Back(s, d, p))
  }

  /** The subtree at `s` has been copied to `d`, with `own` at its top, and nothing else has changed. */
  ghost predicate CopiedTo(job: Job, st: State, tr: Trace, st': State, tr': Trace, s: Path, d: Path, own: View)
    requires s in job.src
  {
    && Valid(job, st', tr')
    && Erase(st'.dst) == Overlay(Erase(st.dst), Image(job.src, s, d, own))
    && SameElsewhere(st.dst, st'.dst, d) && Kept(tr, tr', s, d) && FilesFrom(job, tr', s, d)
  }

  /** What a copy of `s` to `d` starts from. */
  ghost predicate Ready(job: Job, st: State, tr: Trace, s: Path, d: Path) {
    && Valid(job, st, tr) && s in job.src && job.top <= s && d == Back(job.dest, job.top, s)
    && DirsAbove(st.dst, d) && PlainPath(d) && Untouched(st, tr, d)
    && (forall q :: q in job.src && s <= q ==> q in tr.ahead)
  }

  lemma LeafHistory(job: Job, tr: Trace, gone: set<Path>, s: Path, d: Path, tr': Trace)
    requires WellFormed(job.src) && s in job.src && !job.src[s].view.Dir?
    requires forall q :: q in tr.ahead ==> q in job.src
    requires forall p :: p in tr.origin ==> !(d <= p)
    requires forall p :: p in gone ==> d <= p
    requires tr' == tr.(standing := tr.standing - gone, ahead := tr.ahead - {s},
                        origin := if job.src[s].view.File? then tr.origin[d := s] else tr.origin, twin := tr'.twin)
    ensures Kept(tr, tr', s, d) && FilesFrom(job, tr', s, d)
  {
    hide WellFormed;
    forall p | d <= p ensures Back(s, d, p) in job.src ==> p == d {
      PrefixCases(d, p);
      if d < p {
        NothingBelow(job.src, s, Back(s, d, p));
      }
    }
    assert Back(s, d, d) == s;
    OnlyItself(job.src, s);
    forall q | q in tr.ahead && s <= q ensures q == s {
      assert q in AtOrBelow(job.src, s);
    }
  }

  /** A leaf counted, cleared for and written is a leaf copied. */
  lemma LeafCopied(job: Job, st: State, tr: Trace, s: Path, d: Path, node: Node, st': State, tr': Trace)
    requires Ready(job, st, tr, s, d) && d != [] && !node.view.Dir? && !job.src[s].view.Dir?
    requires Valid(job, st', tr') && st'.dst == Without(st.dst, d)[d := node]
    requires tr' == tr.(standing := tr.standing - AtOrBelow(st.dst, d), ahead := tr.ahead - {s},
                        origin := if job.src[s].view.File? then tr.origin[d := s] else tr.origin, twin := tr'.twin)
    ensures CopiedTo(job, st, tr, st', tr', s, d, node.view)
  {
    ReadyParts(job, st, tr, s, d);
    hide Valid, WellFormed, SameElsewhere, Erase, Overlay, Image, DirsAbove, PlainPath, Kept, FilesFrom;
    WritingLeafIsOverlay(st.dst, d, node);
    ImageOfLeaf(job.src, s, d, node.view);
    LeafHistory(job, tr, AtOrBelow(st.dst, d), s, d, tr');
  }

  /** Nothing is below an entry that is no directory. */
  lemma LeafIsAll(job: Job, st: State, tr: Trace, s: Path, d: Path)
    requires Ready(job, st, tr, s, d)
    ensures !job.src[s].view.Dir? ==> WritableBelow(job, s)
  {
    hide DirsAbove, PlainPath, Untouched, Budgeted, Tracks, TableOk, EntryWritable;
    if !job.src[s].view.Dir? {
      OnlyItself(job.src, s);
    }
  }

  lemma ReadyParts(job: Job, st: State, tr: Trace, s: Path, d: Path)
    requires Ready(job, st, tr, s, d)
    ensures WellFormed(job.src) && WellFormed(st.dst) && s in tr.ahead
    ensures forall q :: q in tr.ahead ==> q in job.src
  {
  }

  /** Counting an entry, as `copy_context_tree` does before anything else. */
  lemma CountedStays(job: Job, st: State, tr: Trace, s: Path)
    requires Valid(job, st, tr) && s in tr.ahead && st.seen < job.limit
    ensures Valid(job, st.(seen := st.seen + 1), tr.(ahead := tr.ahead - {s}))
    ensures forall i :: i in tr.twin ==> tr.twin[i].first != s
  {
    hide WellFormed, SourceTree, TableOk;
    SameTable(job, st, tr, st.(seen := st.seen + 1), tr.(ahead := tr.ahead - {s}));
  }

  /** A full count means the source holds more than was asked for. */
  lemma TooManyIsTooMany(job: Job, st: State, tr: Trace, s: Path)
    requires Valid(job, st, tr) && s in tr.ahead && st.seen >= job.limit
    ensures Why(job, tr.base, TooManyEntries)
  {
    SubsetIsSmaller({s}, tr.ahead);
  }

  /** `ensure_parent_dirs` and `confined_parent_fd`. Below real directories they
      make nothing and lead to `d` itself, whatever links the root holds elsewhere. */
  method Approach(st: State, d: Path) returns (st': State, at: Path)
    requires d != [] && DirsAbove(st.dst, d) && PlainPath(d)
    ensures st' == st && at == d
  {
    var ok, dst, nextId := EnsureParentDirs(st.dst, st.nextId, d);
    assert ok;
    st' := st.(dst := dst, nextId := nextId);
    assert DirsAbove(dst, Parent(d)) && IsDir(dst, Parent(d)) by {
      assert forall k :: 0 <= k < |d| - 1 ==> Parent(d)[..k] == d[..k];
      assert d[..|d| - 1] == Parent(d);
    }
    OpensAsItself(dst, Parent(d));
    var parent := OpenDirectory(dst, Parent(d));
    at := parent.path + [d[|d| - 1]];
  }

  /** `apply_context_copy_file`. */
  method CopyFile(job: Job, st: State, ghost tr: Trace, s: Path, d: Path) returns (r: Outcome, st': State, ghost tr': Trace)
    requires Valid(job, st, tr) && s in job.src && s !in tr.ahead && job.src[s].view.File? && job.src[s].id in job.nlink
    requires forall i :: i in tr.twin ==> tr.twin[i].first != s
    requires d != [] && DirsAbove(st.dst, d) && PlainPath(d) && Untouched(st, tr, d) && |st.table| < st.seen <= MAX_ENTRIES
    requires |d[|d| - 1]| > NAME_MAX ==> Why(job, tr.base, LongName)
    ensures Why(job, tr.base, r)
    ensures r.Success? ==> |d[|d| - 1]| <= NAME_MAX
    ensures r.Success? ==>
              && Valid(job, st', tr')
              && d in st'.dst && st'.dst[d].view == Copied(job.src[s].view) && st'.dst == Without(st.dst, d)[d := st'.dst[d]]
              && tr' == tr.(standing := tr.standing - AtOrBelow(st.dst, d), origin := tr.origin[d := s], twin := tr'.twin)
  {
    hide WellFormed, SourceTree, Why, PlainPath, Budgeted;
    if |d[|d| - 1]| > NAME_MAX {
      return LongName, st, tr;
    }
    var id := job.src[s].id;
    var existing := None;
    if job.nlink[id] >= 2 {
      existing := FindLink(st.table, id);
    }
    if id in tr.twin {
      SameInode(job, s, tr.twin[id].first);
    }
    var st1, at := Approach(st, d);
    ghost var tr1;
    r, st1, tr1 := Clear(job, st1, tr, at);
    if !r.Success? {
      return r, st1, tr1;
    }
    assert d !in st1.dst && IsDir(st1.dst, Parent(d)) by {
      assert d[..|d| - 1] == Parent(d) && IsDir(st.dst, Parent(d));
    }
    if existing.Some? {
      st' := st1.(dst := st1.dst[at := existing.value]);
      tr' := tr1.(origin := tr1.origin[d := s]);
      WritingKeepsWellFormed(st1.dst, d, existing.value);
      ValidLinked(job, st1, tr1, s, d, st', tr');
    } else {
      var view := job.src[s].view;
      var node := Node(st1.nextId, File(Meta(view.meta.mode % MODE_BITS, view.meta.uid, view.meta.gid), view.data));
      st' := st1.(dst := st1.dst[at := node], nextId := st1.nextId + 1);
      if job.nlink[id] >= 2 {
        var ok;
        ok, st' := Record(st', id, node);
        assert ok;
      }
      tr' := tr1.(origin := tr1.origin[d := s], twin := tr1.twin[id := Twin(s, node)]);
      WritingKeepsWellFormed(st1.dst, d, node);
      ValidCreated(job, st1, tr1, s, d, st', tr');
    }
  }

  /** Writing an entry that is no tracked file. */
  lemma ValidWritten(job: Job, st: State, tr: Trace, d: Path, node: Node, nextId: nat)
    requires Valid(job, st, tr) && st.nextId <= nextId && d !in tr.origin && WellFormed(st.dst[d := node])
    ensures Valid(job, st.(dst := st.dst[d := node], nextId := nextId), tr)
  {
    hide WellFormed, SourceTree;
    ValidAfter(job, st, st.(dst := st.dst[d := node], nextId := nextId), tr, tr);
  }

  /** `apply_context_copy_symlink`. */
  method CopyLink(job: Job, st: State, ghost tr: Trace, s: Path, d: Path) returns (r: Outcome, st': State, ghost tr': Trace)
    requires Valid(job, st, tr) && s in job.src && job.top <= s && job.src[s].view.Link?
    requires d != [] && DirsAbove(st.dst, d) && PlainPath(d) && Untouched(st, tr, d)
    requires |d[|d| - 1]| > NAME_MAX ==> Why(job, tr.base, LongName)
    ensures Why(job, tr.base, r)
    ensures r.Success? ==> |d[|d| - 1]| <= NAME_MAX
    ensures r.Success? ==>
              && Valid(job, st', tr')
              && d in st'.dst && st'.dst[d].view == Copied(job.src[s].view) && st'.dst == Without(st.dst, d)[d := st'.dst[d]]
              && tr' == tr.(standing := tr.standing - AtOrBelow(st.dst, d))
    ensures r.Success? ==> 0 < |job.src[s].view.target| <= MAX_COPY_PATH_LEN
  {
    var view := job.src[s].view;
    if |view.target| == 0 || |view.target| > MAX_COPY_PATH_LEN {
      return BadTarget, st, tr;
    }
    if |d[|d| - 1]| > NAME_MAX {
      return LongName, st, tr;
    }
    hide WellFormed, SourceTree, Why, PlainPath, Budgeted, Tracks, TableOk;
    var st1, at := Approach(st, d);
    ghost var tr1;
    r, st1, tr1 := Clear(job, st1, tr, at);
    if !r.Success? {
      return r, st1, tr1;
    }
    assert IsDir(st1.dst, Parent(d)) by {
      assert d[..|d| - 1] == Parent(d) && IsDir(st.dst, Parent(d));
    }
    var node := Node(st1.nextId, Link(Meta(LINK_MODE, view.meta.uid, view.meta.gid), view.target));
    WritingKeepsWellFormed(st1.dst, d, node);
    ValidWritten(job, st1, tr1, d, node, st1.nextId + 1);
    st', tr' := st1.(dst := st1.dst[at := node], nextId := st1.nextId + 1), tr1;
  }

  /** What making `d` a directory leaves alone: only an entry at `d` itself can go. */
  ghost predicate OnlyAt(tr: Trace, tr': Trace, d: Path) {
    tr' == tr.(standing := tr'.standing) && tr.standing - {d} <= tr'.standing <= tr.standing
  }

  /** `ensure_link_directory_component`: `d` becomes a directory of the given mode
      and owner. A directory there is kept, anything else is replaced, and no
      link is followed. */
  method EnsureLinkDirectory(job: Job, st: State, ghost tr: Trace, d: Path, meta: Meta) returns (r: Outcome, st': State, ghost tr': Trace)
    requires Valid(job, st, tr) && d != [] && DirsAbove(st.dst, d) && PlainPath(d) && d !in tr.origin
    requires d in st.dst && !IsDir(st.dst, d) ==> Untouched(st, tr, d)
    requires |d[|d| - 1]| > NAME_MAX ==> Why(job, tr.base, LongName)
    ensures Why(job, tr.base, r)
    ensures r.Success? ==> |d[|d| - 1]| <= NAME_MAX
    ensures r.Success? ==>
              && Valid(job, st', tr') && OnlyAt(tr, tr', d) && st'.seen == st.seen && st'.table == st.table
              && d in st'.dst && st'.dst == st.dst[d := st'.dst[d]] && st'.dst[d].view == Dir(meta)
  {
    hide SourceTree, PlainPath, Budgeted, Tracks, TableOk;
    if |d[|d| - 1]| > NAME_MAX {
      return LongName, st, tr;
    }
    var st1, at := Approach(st, d);
    ghost var tr1 := tr;
    if at in st1.dst && !IsDir(st1.dst, at) {
      OnlyItself(st.dst, d);
      r, st1, tr1 := Remove(job, st1, tr, at);
      if !r.Success? {
        return r, st1, tr1;
      }
      assert st1.dst[d := st.dst[d]] == st.dst;
    }
    var id := if at in st1.dst then st1.dst[at].id else st1.nextId;
    var node := Node(id, Dir(meta));
    assert IsDir(st1.dst, Parent(d)) by {
      assert d[..|d| - 1] == Parent(d) && IsDir(st.dst, Parent(d));
    }
    WritingKeepsWellFormed(st1.dst, d, node);
    ValidWritten(job, st1, tr1, d, node, st1.nextId + 1);
    r, st', tr' := Success, st1.(dst := st1.dst[at := node], nextId := st1.nextId + 1), tr1;
  }

  /** Before any file is written: what is not as it was found is one of the first `k` directories of `d`. */
  ghost predicate OnlyDirectoriesMade(st: State, tr: Trace, d: Path, k: nat) {
    && tr.origin == map[]
    && forall p :: p in st.dst && p !in tr.standing ==> p <= d && |p| <= k && IsDir(st.dst, p)
  }

  lemma OneMoreDirectory(st: State, tr: Trace, d: Path, j: nat, k: nat, st': State, tr': Trace)
    requires j < |d| && DirsTo(st.dst, d, j) && j < k && OnlyDirectoriesMade(st, tr, d, k) && OnlyAt(tr, tr', d[..j + 1])
    requires IsDir(st'.dst, d[..j + 1]) && st'.dst == st.dst[d[..j + 1] := st'.dst[d[..j + 1]]]
    ensures OnlyDirectoriesMade(st', tr', d, k) && DirsTo(st'.dst, d, j + 1)
  {
    forall i | 0 <= i <= j + 1 ensures IsDir(st'.dst, d[..i]) {
      assert i <= j ==> |d[..i]| != |d[..j + 1]|;
    }
  }

  /** What an entry at the next prefix of `d` is, when it is no directory: one entry, still standing. */
  lemma NextPrefix(st: State, tr: Trace, d: Path, j: nat, k: nat)
    requires WellFormed(st.dst) && j < |d| && DirsTo(st.dst, d, j) && OnlyDirectoriesMade(st, tr, d, k)
    ensures DirsAbove(st.dst, d[..j + 1])
    ensures d[..j + 1] in st.dst && !IsDir(st.dst, d[..j + 1]) ==> Untouched(st, tr, d[..j + 1])
  {
    var prefix := d[..j + 1];
    assert forall i :: 0 <= i < j + 1 ==> prefix[..i] == d[..i];
    if prefix in st.dst && !IsDir(st.dst, prefix) {
      OnlyItself(st.dst, prefix);
      assert forall p :: p in st.dst && prefix <= p ==> p in AtOrBelow(st.dst, prefix);
    }
  }

  lemma NextDirectory(d: Path, k: nat)
    requires k < |d|
    ensures Directories(d, k) + map[d[..k + 1] := Dir(ROOT_0755)] == Directories(d, k + 1)
  {
    var a, b, c := Directories(d, k), map[d[..k + 1] := Dir(ROOT_0755)], Directories(d, k + 1);
    forall q ensures q in a + b <==> q in c {
      if 0 < |q| <= k + 1 && q <= d {
        assert q == d[..|q|];
      }
    }
  }

  lemma DirectoriesGrow(base: Layer, d: Path, k: nat)
    requires k < |d|
    ensures Overlay(Overlay(base, Directories(d, k)), map[d[..k + 1] := Dir(ROOT_0755)]) == Overlay(base, Directories(d, k + 1))
  {
    hide Overlay;
    var a, b := Directories(d, k), map[d[..k + 1] := Dir(ROOT_0755)];
    assert Stackable(a, b) by {
      forall p ensures !Shadowed(b, p) {
      }
    }
    OverlayTwice(base, a, b);
    NextDirectory(d, k);
  }

  /** `ensure_link_directories`: the first `k` directories of `d`, each as the builder makes it. */
  method EnsureLinkDirectories(job: Job, st: State, ghost tr: Trace, d: Path, k: nat) returns (r: Outcome, st': State, ghost tr': Trace)
    requires Valid(job, st, tr) && k <= |d| && d == job.dest && PlainPath(d) && OnlyDirectoriesMade(st, tr, d, k)
    ensures Why(job, tr.base, r)
    ensures r.Success? ==> forall i :: 0 <= i < k ==> |d[i]| <= NAME_MAX
    ensures r.Success? ==>
              && Valid(job, st', tr') && OnlyDirectoriesMade(st', tr', d, k)
              && tr' == tr.(standing := tr'.standing) && st'.seen == st.seen && st'.table == st.table
              && Erase(st'.dst) == Overlay(Erase(st.dst), Directories(d, k))
              && DirsTo(st'.dst, d, k)
  {
    hide Valid, Why, PlainPath, DirectoriesMade;
    r, st', tr' := Success, st, tr;
    SuccessIsFine(job, tr.base);
    NoDirectoriesMade(job, st, tr, d, k);
    var j := 0;
    while j < k
      invariant 0 <= j <= k && r.Success?
      invariant Valid(job, st', tr') && DirectoriesMade(st, tr, st', tr', d, k, j)
      invariant forall i :: 0 <= i < j ==> |d[i]| <= NAME_MAX
    {
      PrefixIsLong(job, tr.base, j);
      r, st', tr' := EnsureNextDirectory(job, st, tr, st', tr', d, k, j);
      if !r.Success? {
        return;
      }
      j := j + 1;
    }
    AllDirectoriesMade(st, tr, st', tr', d, k);
  }

  /** The first `j` directories of `d` are made, and nothing else is. */
  ghost predicate DirectoriesMade(st: State, tr: Trace, st': State, tr': Trace, d: Path, k: nat, j: nat)
    requires j <= |d|
  {
    && OnlyDirectoriesMade(st', tr', d, k)
    && tr' == tr.(standing := tr'.standing) && st'.seen == st.seen && st'.table == st.table
    && Erase(st'.dst) == Overlay(Erase(st.dst), Directories(d, j))
    && DirsTo(st'.dst, d, j)
  }

  lemma NoDirectoriesMade(job: Job, st: State, tr: Trace, d: Path, k: nat)
    requires Valid(job, st, tr) && OnlyDirectoriesMade(st, tr, d, k)
    ensures DirectoriesMade(st, tr, st, tr, d, k, 0)
  {
    hide Valid, Erase, Overlay, Directories, DirsTo, OnlyDirectoriesMade;
    ValidTrees(job, st, tr);
    NoDirectoriesYet(st.dst, d);
  }

  lemma AllDirectoriesMade(st: State, tr: Trace, st': State, tr': Trace, d: Path, k: nat)
    requires k <= |d| && DirectoriesMade(st, tr, st', tr', d, k, k)
    ensures OnlyDirectoriesMade(st', tr', d, k)
    ensures tr' == tr.(standing := tr'.standing) && st'.seen == st.seen && st'.table == st.table
    ensures Erase(st'.dst) == Overlay(Erase(st.dst), Directories(d, k)) && DirsTo(st'.dst, d, k)
  {
    hide Erase, Overlay, Directories, DirsTo, OnlyDirectoriesMade;
  }

  /** One turn of that loop. */
  method EnsureNextDirectory(job: Job, ghost st0: State, ghost tr0: Trace, st: State, ghost tr: Trace, d: Path, k: nat, j: nat)
    returns (r: Outcome, st': State, ghost tr': Trace)
    requires Valid(job, st, tr) && j < k <= |d| && PlainPath(d) && DirectoriesMade(st0, tr0, st, tr, d, k, j)
    requires |d[j]| > NAME_MAX ==> Why(job, tr0.base, LongName)
    ensures Why(job, tr0.base, r)
    ensures r.Success? ==> Valid(job, st', tr') && DirectoriesMade(st0, tr0, st', tr', d, k, j + 1) && |d[j]| <= NAME_MAX
  {
    hide Valid, Why, Overlay, Erase, Directories, WellFormed, DirsTo, DirsAbove, Untouched, OnlyDirectoriesMade, PlainPath;
    ValidTrees(job, st, tr);
    NextPrefix(st, tr, d, j, k);
    PlainPrefixes(d);
    assert d[..j + 1][j] == d[j];
    NothingWritten(st, tr, d, k);
    r, st', tr' := EnsureLinkDirectory(job, st, tr, d[..j + 1], ROOT_0755);
    if r.Success? {
      OneMoreDirectory(st, tr, d, j, k, st', tr');
      WritingDirIsOverlay(st.dst, d[..j + 1], st'.dst[d[..j + 1]]);
      DirectoriesGrow(Erase(st0.dst), d, j);
    }
  }

  lemma NoDirectoriesYet(fs: Fs, d: Path)
    requires WellFormed(fs)
    ensures Erase(fs) == Overlay(Erase(fs), Directories(d, 0)) && DirsTo(fs, d, 0)
  {
    assert forall p :: !Shadowed(Directories(d, 0), p);
    assert Erase(fs).Keys == Overlay(Erase(fs), Directories(d, 0)).Keys;
    assert d[..0] == [];
  }

  lemma PlainPrefixes(d: Path)
    requires PlainPath(d)
    ensures forall k :: 0 <= k <= |d| ==> PlainPath(d[..k])
  {
  }

  lemma NothingWritten(st: State, tr: Trace, d: Path, k: nat)
    requires OnlyDirectoriesMade(st, tr, d, k)
    ensures tr.origin == map[]
  {
  }

  /** The root, away from `d` and at it, is as it was, and so is what stands below it in no child of `done`. */
  ghost predicate PartialTree(st: State, tr: Trace, st': State, tr': Trace, d: Path, done: set<Name>) {
    && SameElsewhere(st.dst, st'.dst, d) && d in st.dst && d in st'.dst && st'.dst[d] == st.dst[d]
    && (forall p :: p in tr'.standing && !(d < p) ==> p in tr.standing)
    && (forall p :: p in tr.standing && !(d < p) ==> p in tr'.standing)
    && (forall p :: p in st'.dst && d < p && p[|d|] !in done ==> p in tr'.standing)
  }

  /** Everything below `s` is still to be copied, but for the children in `done`. */
  ghost predicate PartialAhead(src: Fs, ahead: set<Path>, ahead': set<Path>, s: Path, done: set<Name>) {
    && (forall q :: q in ahead && !(s < q) ==> q in ahead')
    && (forall q :: q in ahead' ==> q in ahead && !(s < q && q[|s|] in done))
    && (forall q :: q in src && s < q && q[|s|] !in done ==> q in ahead')
  }

  /** The files written below `d` are the images of the files of the children in `done`. */
  ghost predicate PartialOrigin(src: Fs, origin: map<Path, Path>, origin': map<Path, Path>, s: Path, d: Path, done: set<Name>) {
    && (forall p :: p in origin ==> p in origin' && origin'[p] == origin[p])
    && (forall p :: p in origin' && !(d < p) ==> p in origin)
    && (forall p :: d < p && p[|d|] !in done ==> p !in origin')
    && (forall p :: d < p && p[|d|] in done ==>
          && (p in origin' <==> Back(s, d, p) in src && src[Back(s, d, p)].view.File?)
          && (p in origin' ==> origin'[p] == Back(s, d, p)))
  }

  /** `st'` is `st`, in which `d` is the directory made for `s`, with the children in `done` copied. */
  ghost predicate Partial(job: Job, st: State, tr: Trace, st': State, tr': Trace, s: Path, d: Path, done: set<Name>) {
    && Valid(job, st', tr') && tr'.base == tr.base && tr'.firstId == tr.firstId
    && PartialTree(st, tr, st', tr', d, done)
    && PartialAhead(job.src, tr.ahead, tr'.ahead, s, done)
    && PartialOrigin(job.src, tr.origin, tr'.origin, s, d, done)
  }

  /** Where a copy of children starts: `d` is the directory made for `s`. */
  ghost predicate DirMade(job: Job, st: State, tr: Trace, s: Path, d: Path) {
    && s in job.src && job.top <= s && d == Back(job.dest, job.top, s) && PlainPath(d)
    && DirsAbove(st.dst, d) && IsDir(st.dst, d) && s !in tr.ahead && (forall p :: p in tr.origin ==> !(d <= p))
    && Partial(job, st, tr, st, tr, s, d, {})
  }

  lemma SameDirs(a: Fs, b: Fs, d: Path)
    requires SameElsewhere(a, b, d) && DirsAbove(a, d)
    ensures DirsAbove(b, d)
  {
    forall k | 0 <= k < |d| ensures IsDir(b, d[..k]) {
      assert !(d <= d[..k]);
      assert IsDir(a, d[..k]);
    }
  }

  lemma ReadyForChild(job: Job, st: State, tr: Trace, st': State, tr': Trace, s: Path, d: Path, done: set<Name>, n: Name)
    requires DirMade(job, st, tr, s, d) && Partial(job, st, tr, st', tr', s, d, done)
    requires n !in done && s + [n] in job.src
    ensures Ready(job, st', tr', s + [n], d + [n])
  {
    hide Valid, WellFormed, DirsAbove, PlainPath;
    SameDirs(st.dst, st'.dst, d);
    DirsAboveChild(st'.dst, d, n);
    PlainChild(job, st', tr', s, d, n);
    assert Back(job.dest, job.top, s + [n]) == d + [n];
    forall p | d + [n] <= p ensures d < p && p[|d|] == n {
      assert p[..|d| + 1] == d + [n];
    }
    forall q | s + [n] <= q ensures s < q && q[|s|] == n {
      assert q[..|s| + 1] == s + [n];
    }
  }

  lemma DirsAboveChild(fs: Fs, d: Path, n: Name)
    requires DirsAbove(fs, d) && IsDir(fs, d)
    ensures DirsAbove(fs, d + [n])
  {
    forall k | 0 <= k < |d| + 1 ensures IsDir(fs, (d + [n])[..k]) {
      assert (d + [n])[..k] == d[..k];
      assert k == |d| ==> d[..k] == d;
    }
  }

  lemma PlainChild(job: Job, st: State, tr: Trace, s: Path, d: Path, n: Name)
    requires Valid(job, st, tr) && s + [n] in job.src && PlainPath(d)
    ensures PlainPath(d + [n])
  {
    assert PlainPath(s + [n]) && (s + [n])[|s|] == n;
  }

  lemma BelowChild(d: Path, n: Name, p: Path)
    ensures d + [n] <= p <==> d < p && p[|d|] == n
  {
    if d < p && p[|d|] == n {
      assert p[..|d| + 1] == d + [n];
    }
  }

  lemma OneMoreTree(st: State, tr: Trace, st': State, tr': Trace, d: Path, done: set<Name>, s: Path, n: Name, st'': State, tr'': Trace)
    requires PartialTree(st, tr, st', tr', d, done)
    requires SameElsewhere(st'.dst, st''.dst, d + [n]) && Kept(tr', tr'', s, d + [n])
    ensures PartialTree(st, tr, st'', tr'', d, done + {n})
  {
    forall p ensures d + [n] <= p <==> d < p && p[|d|] == n {
      BelowChild(d, n, p);
    }
  }

  lemma OneMoreAhead(src: Fs, tr: Trace, tr': Trace, s: Path, d: Path, done: set<Name>, n: Name, tr'': Trace)
    requires PartialAhead(src, tr.ahead, tr'.ahead, s, done) && n !in done && Kept(tr', tr'', s + [n], d)
    ensures PartialAhead(src, tr.ahead, tr''.ahead, s, done + {n})
  {
    forall q ensures s + [n] <= q <==> s < q && q[|s|] == n {
      BelowChild(s, n, q);
    }
  }

  lemma OneMoreOrigin(job: Job, tr: Trace, tr': Trace, s: Path, d: Path, done: set<Name>, n: Name, tr'': Trace)
    requires PartialOrigin(job.src, tr.origin, tr'.origin, s, d, done) && n !in done
    requires Kept(tr', tr'', s + [n], d + [n]) && FilesFrom(job, tr'', s + [n], d + [n])
    requires forall p :: p in tr.origin ==> !(d <= p)
    ensures PartialOrigin(job.src, tr.origin, tr''.origin, s, d, done + {n})
  {
    forall p ensures d + [n] <= p <==> d < p && p[|d|] == n {
      BelowChild(d, n, p);
    }
    forall p | d + [n] <= p ensures Back(s + [n], d + [n], p) == Back(s, d, p) {
      assert d < p;
    }
  }

  lemma OneMoreCopied(job: Job, st: State, tr: Trace, st': State, tr': Trace, s: Path, d: Path, done: set<Name>, n: Name, st'': State, tr'': Trace)
    requires DirMade(job, st, tr, s, d) && Partial(job, st, tr, st', tr', s, d, done) && n !in done && s + [n] in job.src
    requires CopiedTo(job, st', tr', st'', tr'', s + [n], d + [n], Copied(job.src[s + [n]].view))
    ensures Partial(job, st, tr, st'', tr'', s, d, done + {n})
  {
    hide Valid, Erase, Overlay, Image, SameElsewhere, PartialTree, PartialAhead, PartialOrigin, FilesFrom;
    OneMoreTree(st, tr, st', tr', d, done, s + [n], n, st'', tr'');
    OneMoreAhead(job.src, tr, tr', s, d + [n], done, n, tr'');
    OneMoreOrigin(job, tr, tr', s, d, done, n, tr'');
  }

  /** With every child copied, the histories differ at and below `s` and `d` only. */
  lemma WholeHistory(job: Job, tr0: Trace, tr: Trace, tr': Trace, st: State, st': State, s: Path, d: Path, done: set<Name>)
    requires WellFormed(job.src) && s in job.src && job.src[s].view.Dir?
    requires forall n {:trigger s + [n]} :: s + [n] in job.src ==> n in done
    requires forall q :: q in tr0.ahead ==> q in job.src
    requires OnlyAt(tr0.(ahead := tr0.ahead - {s}), tr, d) && (forall p :: p in tr.origin ==> !(d <= p))
    requires tr'.base == tr.base && tr'.firstId == tr.firstId && PartialTree(st, tr, st', tr', d, done)
    requires PartialAhead(job.src, tr.ahead, tr'.ahead, s, done) && PartialOrigin(job.src, tr.origin, tr'.origin, s, d, done)
    ensures Kept(tr0, tr', s, d) && FilesFrom(job, tr', s, d)
  {
    hide WellFormed;
    forall q | q in job.src && s < q ensures q[|s|] in done {
      BelowSomeChild(job.src, s, q);
    }
    forall q | q in tr0.ahead && s <= q ensures q == s || s < q {
      PrefixCases(s, q);
    }
    forall p | d <= p ensures p == d || (d < p && s < Back(s, d, p) && Back(s, d, p)[|s|] == p[|d|]) {
      PrefixCases(d, p);
    }
    assert Back(s, d, d) == s;
  }

  lemma RestampIsOverlay(fs: Fs, d: Path)
    requires IsDir(fs, d)
    ensures Overlay(Erase(fs), map[d := fs[d].view]) == Erase(fs)
  {
    WritingDirIsOverlay(fs, d, fs[d]);
    assert fs[d := fs[d]] == fs;
  }

  /** A directory made and then filled is the directory's image stacked at once. */
  lemma MakeThenFill(base: Layer, src: Fs, s: Path, d: Path, own: View)
    requires s in src && own.Dir?
    ensures Overlay(Overlay(base, map[d := own]), Image(src, s, d, own)) == Overlay(base, Image(src, s, d, own))
  {
    var a, b := map[d := own], Image(src, s, d, own);
    assert Back(s, d, d) == s;
    forall k | 0 <= k < |d| ensures d[..k] !in b {
      assert !(d <= d[..k]);
    }
    OverlayTwice(base, a, b);
    assert a + b == b;
  }

  /** The directory loop of `copy_context_tree`, in whatever order the source lists its entries. */
  method CopyChildren(job: Job, st: State, ghost tr: Trace, s: Path, d: Path)
    returns (r: Outcome, st': State, ghost tr': Trace, ghost done: set<Name>)
    requires DirMade(job, st, tr, s, d) && job.src[s].view.Dir?
    ensures Why(job, tr.base, r)
    ensures r.Success? ==>
              && Partial(job, st, tr, st', tr', s, d, done)
              && Erase(st'.dst) == Overlay(Erase(st.dst), Image(job.src, s, d, st.dst[d].view))
              && forall n {:trigger s + [n]} :: s + [n] in job.src ==> n in done
    ensures r.Success? ==> WritableBelow(job, s)
    decreases AtOrBelow(job.src, s), 0
  {
    hide Valid, WellFormed, Erase, Overlay, Image, PartImage, Partial, DirMade, CopiedTo, Ready, Why, WritableBelow, ChildrenWritable, EntryWritable;
    SuccessIsFine(job, tr.base);
    DirMadeParts(job, st, tr, s, d);
    r, st', tr', done := Success, st, tr, {};
    var names := ListDirectory(job.src, s);
    ghost var own := st.dst[d].view;
    NothingCopiedYet(job, st, tr, s, d);
    NoneWritten(job, s);
    while names != {}
      invariant names !! done && r.Success?
      invariant forall n {:trigger s + [n]} :: s + [n] in job.src <==> n in names || n in done
      invariant Partial(job, st, tr, st', tr', s, d, done)
      invariant Erase(st'.dst) == Overlay(Erase(st.dst), PartImage(job.src, s, d, own, done))
      invariant ChildrenWritable(job, s, done)
      decreases names
    {
      var n :| n in names;
      assert s + [n] in job.src;
      if |Spelled(d + [n])| > MAX_COPY_PATH_LEN {
        TooLongIsTooLong(job, st, tr, s, d, n);
        r := PathTooLong;
        return;
      }
      ReadyForChild(job, st, tr, st', tr', s, d, done, n);
      PartialParts(job, st, tr, st', tr', s, d, done);
      ghost var st1, tr1 := st', tr';
      ChildIsSmaller(job.src, s, n);
      r, st', tr' := CopyTree(job, st', tr', s + [n], d + [n]);
      if !r.Success? {
        return;
      }
      OneMoreCopied(job, st, tr, st1, tr1, s, d, done, n, st', tr');
      PartImageGrows(job.src, s, d, own, done, n);
      OverlayTwice(Erase(st.dst), PartImage(job.src, s, d, own, done), Image(job.src, s + [n], d + [n], Copied(job.src[s + [n]].view)));
      CopiedIsOverlay(job, st1, tr1, st', tr', s + [n], d + [n], Copied(job.src[s + [n]].view));
      OneMoreWritable(job, s, done, n);
      names, done := names - {n}, done + {n};
    }
    PartialParts(job, st, tr, st', tr', s, d, done);
    AllWritable(job, s, done);
    ImageIsWhole(job.src, s, d, own, done);
  }

  lemma DirMadeParts(job: Job, st: State, tr: Trace, s: Path, d: Path)
    requires DirMade(job, st, tr, s, d)
    ensures job.top <= s && s in job.src && d in st.dst && Partial(job, st, tr, st, tr, s, d, {})
  {
  }

  lemma PartialParts(job: Job, st: State, tr: Trace, st': State, tr': Trace, s: Path, d: Path, done: set<Name>)
    requires Partial(job, st, tr, st', tr', s, d, done)
    ensures tr'.base == tr.base && tr'.firstId == tr.firstId && WellFormed(job.src)
  {
  }

  lemma TooLongIsTooLong(job: Job, st: State, tr: Trace, s: Path, d: Path, n: Name)
    requires DirMade(job, st, tr, s, d) && s + [n] in job.src && |Spelled(d + [n])| > MAX_COPY_PATH_LEN
    ensures Why(job, tr.base, PathTooLong)
  {
    assert Back(job.dest, job.top, s + [n]) == d + [n];
  }

  lemma CopiedIsOverlay(job: Job, st: State, tr: Trace, st': State, tr': Trace, s: Path, d: Path, own: View)
    requires s in job.src && CopiedTo(job, st, tr, st', tr', s, d, own)
    ensures Erase(st'.dst) == Overlay(Erase(st.dst), Image(job.src, s, d, own))
  {
  }

  lemma NothingCopiedYet(job: Job, st: State, tr: Trace, s: Path, d: Path)
    requires DirMade(job, st, tr, s, d)
    ensures Erase(st.dst) == Overlay(Erase(st.dst), PartImage(job.src, s, d, st.dst[d].view, {}))
  {
    hide Partial, WellFormed, Erase, Overlay, DirsAbove, PlainPath;
    RestampIsOverlay(st.dst, d);
    assert PartImage(job.src, s, d, st.dst[d].view, {}) == map[d := st.dst[d].view];
  }

  lemma ChildIsSmaller(src: Fs, s: Path, n: Name)
    requires s in src
    ensures AtOrBelow(src, s + [n]) < AtOrBelow(src, s)
  {
    assert s in AtOrBelow(src, s) && s !in AtOrBelow(src, s + [n]);
    forall q | q in AtOrBelow(src, s + [n]) ensures s <= q {
      BelowChild(s, n, q);
    }
  }

  /** `copy_context_tree` below the top of the copied tree. */
  method CopyTree(job: Job, st: State, ghost tr: Trace, s: Path, d: Path) returns (r: Outcome, st': State, ghost tr': Trace)
    requires Ready(job, st, tr, s, d) && d != [] && job.top < s && |Spelled(d)| <= MAX_COPY_PATH_LEN
    ensures Why(job, tr.base, r)
    ensures r.Success? ==> CopiedTo(job, st, tr, st', tr', s, d, Copied(job.src[s].view))
    ensures r.Success? ==> s in job.src && s != [] && job.top <= s && EntryWritable(job, s) && WritableBelow(job, s)
    decreases AtOrBelow(job.src, s), 1
  {
    hide Valid, WellFormed, Why, CopiedTo, WritableBelow, Untouched, DirsAbove, PlainPath, AtOrBelow, Spelled;
    SameLastName(job, s, d);
    ReadyParts(job, st, tr, s, d);
    if st.seen >= job.limit {
      TooManyIsTooMany(job, st, tr, s);
      return TooManyEntries, st, tr;
    }
    if job.src[s].view.Special? {
      SpecialBelow(job, tr.base, s);
      return Unsupported, st.(seen := st.seen + 1), tr.(ahead := tr.ahead - {s});
    }
    LongIsLong(job, tr.base, s);
    LeafIsAll(job, st, tr, s, d);
    CountedStays(job, st, tr, s);
    var st1 := st.(seen := st.seen + 1);
    ghost var tr1 := tr.(ahead := tr.ahead - {s});
    CountedParts(job, st, tr, s, d);
    var view := job.src[s].view;
    match view {
      case Dir(meta) =>
        r, st1, tr1 := EnsureLinkDirectory(job, st1, tr1, d, Meta(meta.mode % MODE_BITS, meta.uid, meta.gid));
        if !r.Success? {
          return r, st1, tr1;
        }
        MadeForChildren(job, st, tr, s, d, st1, tr1);
        ghost var done;
        r, st', tr', done := CopyChildren(job, st1, tr1, s, d);
        if r.Success? {
          WholeCopied(job, st, tr, s, d, st1, tr1, st', tr', done);
        }
      case File(_, _) =>
        r, st', tr' := CopyFile(job, st1, tr1, s, d);
        if r.Success? {
          LeafCopied(job, st, tr, s, d, st'.dst[d], st', tr');
        }
      case Link(_, _) =>
        r, st', tr' := CopyLink(job, st1, tr1, s, d);
        if r.Success? {
          LeafCopied(job, st, tr, s, d, st'.dst[d], st', tr');
        }
    }
  }

  lemma SameLastName(job: Job, s: Path, d: Path)
    requires job.top < s && d == Back(job.dest, job.top, s)
    ensures s != [] && d != [] && d[|d| - 1] == s[|s| - 1]
  {
  }

  lemma CountedParts(job: Job, st: State, tr: Trace, s: Path, d: Path)
    requires Ready(job, st, tr, s, d) && st.seen < job.limit
    ensures job.src[s].id in job.nlink && |st.table| < st.seen + 1 <= MAX_ENTRIES
    ensures Untouched(st.(seen := st.seen + 1), tr.(ahead := tr.ahead - {s}), d) && d !in tr.origin
  {
  }

  /** The directory just made for `s` is ready to be filled. */
  lemma MadeForChildren(job: Job, st: State, tr: Trace, s: Path, d: Path, st1: State, tr1: Trace)
    requires Ready(job, st, tr, s, d) && Valid(job, st1, tr1) && IsDir(st1.dst, d)
    requires OnlyAt(tr.(ahead := tr.ahead - {s}), tr1, d) && st1.dst == st.dst[d := st1.dst[d]]
    ensures DirMade(job, st1, tr1, s, d)
  {
    hide Valid, WellFormed, PlainPath;
    SameDirs(st.dst, st1.dst, d);
  }

  lemma SameTwice(a: Fs, b: Fs, c: Fs, d: Path)
    requires SameElsewhere(a, b, d) && SameElsewhere(b, c, d)
    ensures SameElsewhere(a, c, d)
  {
  }

  lemma WholeCopied(job: Job, st: State, tr: Trace, s: Path, d: Path, st1: State, tr1: Trace, st': State, tr': Trace, done: set<Name>)
    requires Ready(job, st, tr, s, d) && job.src[s].view.Dir? && DirMade(job, st1, tr1, s, d)
    requires OnlyAt(tr.(ahead := tr.ahead - {s}), tr1, d) && st1.dst == st.dst[d := st1.dst[d]]
    requires Partial(job, st1, tr1, st', tr', s, d, done) && forall n {:trigger s + [n]} :: s + [n] in job.src ==> n in done
    requires Erase(st'.dst) == Overlay(Erase(st1.dst), Image(job.src, s, d, st1.dst[d].view))
    ensures CopiedTo(job, st, tr, st', tr', s, d, st1.dst[d].view)
  {
    ReadyParts(job, st, tr, s, d);
    assert forall p :: p in tr1.origin ==> !(d <= p);
    hide Ready, Valid, WellFormed, Erase, Overlay, Image, DirsAbove, PlainPath, PartialAhead, PartialOrigin, Kept, FilesFrom;
    WritingDirIsOverlay(st.dst, d, st1.dst[d]);
    MakeThenFill(Erase(st.dst), job.src, s, d, st1.dst[d].view);
    SameTwice(st.dst, st1.dst, st'.dst, d);
    hide PartialTree, SameElsewhere;
    WholeHistory(job, tr, tr1, tr', st1, st', s, d, done);
  }

  // ---- The whole operation ----

  /** Before anything is done. */
  ghost predicate Fresh(job: Job, st: State, tr: Trace) {
    && SourceTree(job) && PlainPath(job.dest) && WellFormed(st.dst)
    && st == State(st.dst, st.nextId, 0, 0, [], 0)
    && tr == Trace(st.dst, st.nextId, st.dst.Keys, AtOrBelow(job.src, job.top), map[], map[])
  }

  lemma FreshTop(job: Job, st: State, tr: Trace)
    requires Fresh(job, st, tr)
    ensures job.top in job.src
  {
  }

  lemma FreshIsValid(job: Job, st: State, tr: Trace, k: nat)
    requires Fresh(job, st, tr)
    ensures Valid(job, st, tr) && OnlyDirectoriesMade(st, tr, job.dest, k) && PlainPath(job.dest)
    ensures tr.ahead == AtOrBelow(job.src, job.top) && job.top in tr.ahead && tr.base == st.dst && tr.firstId == st.nextId
  {
  }

  lemma DirectoriesStack(src: Fs, s: Path, d: Path, k: nat)
    requires s in src && k <= |d| && (k == |d| ==> src[s].view.Dir?)
    ensures Stackable(Directories(d, k), Image(src, s, d, CopiedTop(src[s].view)))
  {
    hide Directories, Image;
    var a, b := Directories(d, k), Image(src, s, d, CopiedTop(src[s].view));
    forall p | p in a ensures !Shadowed(b, p) {
      forall j | 0 <= j < |p| ensures p[..j] !in b {
        assert !(d <= p[..j]);
      }
    }
    forall p | p in a && p in b ensures a[p] == b[p] {
      PrefixCases(p, d);
    }
  }

  /** Stacking the directories above, and at, the destination and then the image is stacking the copy's layer. */
  lemma DirectoriesThenImage(base: Layer, src: Fs, s: Path, d: Path, k: nat)
    requires s in src && ((k == |d| && src[s].view.Dir?) || k == |d| - 1)
    ensures Overlay(Overlay(base, Directories(d, k)), Image(src, s, d, CopiedTop(src[s].view))) == Overlay(base, CopyLayer(src, s, d))
  {
    hide Directories, Image, Overlay;
    var a, b := Directories(d, k), Image(src, s, d, CopiedTop(src[s].view));
    DirectoriesStack(src, s, d, k);
    OverlayTwice(base, a, b);
    LayerOfDirectories(src, s, d, k);
  }

  lemma LayerOfDirectories(src: Fs, s: Path, d: Path, k: nat)
    requires s in src && ((k == |d| && src[s].view.Dir?) || k == |d| - 1)
    ensures Directories(d, k) + Image(src, s, d, CopiedTop(src[s].view)) == CopyLayer(src, s, d)
  {
    hide Directories, Image;
    var a, b := Directories(d, k), Image(src, s, d, CopiedTop(src[s].view));
    var above := Directories(d, if d == [] then 0 else |d| - 1);
    forall p | p in a && p !in b ensures p in above {
      assert Back(s, d, d) == s;
      PrefixCases(p, d);
    }
    assert a + b == above + b;
  }

  lemma DirectoriesTwice(base: Layer, d: Path, k: nat)
    requires k <= |d|
    ensures Overlay(Overlay(base, Directories(d, k)), Directories(d, k)) == Overlay(base, Directories(d, k))
  {
    hide Directories, Overlay;
    OverlayIdempotent(base, Directories(d, k));
  }

  /** With every child copied, the files written below `d` are the images of all files below `s`. */
  lemma WholeFiles(job: Job, tr: Trace, tr': Trace, s: Path, d: Path, done: set<Name>)
    requires WellFormed(job.src) && s in job.src && job.src[s].view.Dir?
    requires forall n {:trigger s + [n]} :: s + [n] in job.src ==> n in done
    requires PartialOrigin(job.src, tr.origin, tr'.origin, s, d, done) && (forall p :: p in tr.origin ==> !(d <= p))
    ensures FilesFrom(job, tr', s, d)
  {
    hide WellFormed;
    forall q | q in job.src && s < q ensures q[|s|] in done {
      BelowSomeChild(job.src, s, q);
    }
    forall p | d <= p ensures p == d || (d < p && s < Back(s, d, p) && Back(s, d, p)[|s|] == p[|d|]) {
      PrefixCases(d, p);
    }
    assert Back(s, d, d) == s;
  }

  /** Where the copy itself starts: the directories above the destination are made. */
  ghost predicate Prepared(job: Job, st: State, tr: Trace, k: nat, under: Layer) {
    && Valid(job, st, tr) && PlainPath(job.dest) && k <= |job.dest|
    && tr.ahead == AtOrBelow(job.src, job.top)
    && OnlyDirectoriesMade(st, tr, job.dest, k) && DirsTo(st.dst, job.dest, k)
    && Erase(st.dst) == Overlay(under, Directories(job.dest, k))
  }

  /** The copy is complete: `under` with the copy's layer on top. */
  ghost predicate Complete(job: Job, st: State, tr: Trace, under: Layer)
    requires job.top in job.src
  {
    && Valid(job, st, tr) && FilesFrom(job, tr, job.top, job.dest) && tr.ahead == {}
    && Erase(st.dst) == Overlay(under, CopyLayer(job.src, job.top, job.dest))
  }

  /** `copy_context_tree` at the top, for a file, once its entry limit is checked. */
  method CopyTopFile(job: Job, st: State, ghost tr: Trace, ghost under: Layer) returns (r: Outcome, st': State, ghost tr': Trace)
    requires job.top in job.src && job.src[job.top].view.File? && job.dest != []
    requires Prepared(job, st, tr, |job.dest| - 1, under) && st.seen < job.limit
    ensures Why(job, tr.base, r)
    ensures r.Success? ==> Complete(job, st', tr', under) && tr'.firstId == tr.firstId
    ensures r.Success? ==> |job.dest[|job.dest| - 1]| <= NAME_MAX && WritableBelow(job, job.top)
  {
    var s, d := job.top, job.dest;
    ReadyAtTop(job, st, tr, under);
    LongIsLong(job, tr.base, s);
    LeafIsAll(job, st, tr, s, d);
    hide Prepared, Complete, Valid, Why, WellFormed, PlainPath, Tracks, TableOk, Erase, Overlay, Image, WritableBelow;
    assert Back(d, s, s) == d;
    ReadyParts(job, st, tr, s, d);
    CountedStays(job, st, tr, s);
    CountedParts(job, st, tr, s, d);
    r, st', tr' := CopyFile(job, st.(seen := st.seen + 1), tr.(ahead := tr.ahead - {s}), s, d);
    if r.Success? {
      LeafCopied(job, st, tr, s, d, st'.dst[d], st', tr');
      CopiedIsComplete(job, st, tr, st', tr', under);
    }
  }

  lemma ReadyAtTop(job: Job, st: State, tr: Trace, under: Layer)
    requires job.top in job.src && job.dest != [] && Prepared(job, st, tr, |job.dest| - 1, under)
    ensures Ready(job, st, tr, job.top, job.dest)
  {
    hide Valid, WellFormed, Erase, Overlay, PlainPath, Directories;
    assert Back(job.dest, job.top, job.top) == job.dest;
    forall p | p in st.dst && job.dest <= p ensures p in tr.standing {
    }
  }

  lemma NoneAhead(job: Job, tr: Trace, tr': Trace)
    requires tr.ahead == AtOrBelow(job.src, job.top) && Kept(tr, tr', job.top, job.dest)
    ensures tr'.ahead == {}
  {
  }

  lemma CopiedIsComplete(job: Job, st: State, tr: Trace, st': State, tr': Trace, under: Layer)
    requires job.top in job.src && job.dest != [] && !job.src[job.top].view.Dir? && Prepared(job, st, tr, |job.dest| - 1, under)
    requires CopiedTo(job, st, tr, st', tr', job.top, job.dest, Copied(job.src[job.top].view))
    ensures Complete(job, st', tr', under)
  {
    hide Valid, WellFormed, Erase, Overlay, PlainPath, Directories, Image, FilesFrom, Kept, SameElsewhere, OnlyDirectoriesMade, DirsTo;
    NoneAhead(job, tr, tr');
    DirectoriesThenImage(under, job.src, job.top, job.dest, |job.dest| - 1);
  }

  /** `ensure_context_copy_root_dir`: the destination directory, made or stamped again. */
  method StampDestination(job: Job, st: State, ghost tr: Trace) returns (r: Outcome, st': State, ghost tr': Trace)
    requires Valid(job, st, tr) && PlainPath(job.dest)
    requires OnlyDirectoriesMade(st, tr, job.dest, |job.dest|) && DirsTo(st.dst, job.dest, |job.dest|)
    ensures Why(job, tr.base, r)
    ensures r.Success? ==>
              && Valid(job, st', tr') && OnlyDirectoriesMade(st', tr', job.dest, |job.dest|) && DirsTo(st'.dst, job.dest, |job.dest|)
              && tr' == tr.(standing := tr'.standing) && IsDir(st'.dst, job.dest) && st'.dst[job.dest].view == Dir(ROOT_0755)
              && Erase(st'.dst) == Overlay(Erase(st.dst), if job.dest == [] then map[[] := Dir(ROOT_0755)] else Directories(job.dest, |job.dest|))
  {
    hide Valid, Why, WellFormed, Erase, Overlay, Directories, PlainPath, OnlyDirectoriesMade, DirsTo;
    if job.dest == [] {
      RootOnly(job, st, tr);
      var node := Node(st.dst[[]].id, Dir(ROOT_0755));
      r, st', tr' := Success, st.(dst := st.dst[[] := node]), tr;
    } else {
      r, st', tr' := EnsureLinkDirectories(job, st, tr, job.dest, |job.dest|);
      if r.Success? {
        Stamped(st.dst, st'.dst, job.dest);
      }
    }
  }

  lemma RootOnly(job: Job, st: State, tr: Trace)
    requires Valid(job, st, tr) && job.dest == [] && OnlyDirectoriesMade(st, tr, [], 0) && DirsTo(st.dst, [], 0)
    ensures [] in st.dst && Why(job, tr.base, Success)
    ensures var st' := st.(dst := st.dst[[] := Node(st.dst[[]].id, Dir(ROOT_0755))]);
            && Valid(job, st', tr) && OnlyDirectoriesMade(st', tr, [], 0) && DirsTo(st'.dst, [], 0)
            && Erase(st'.dst) == Overlay(Erase(st.dst), map[[] := Dir(ROOT_0755)])
  {
    hide SourceTree, Budgeted, Tracks, TableOk, Erase, Overlay;
    var root: Path := [];
    assert root[..0] == [] && IsDir(st.dst, root[..0]);
    var node := Node(st.dst[[]].id, Dir(ROOT_0755));
    WritingKeepsWellFormed(st.dst, [], node);
    WritingDirIsOverlay(st.dst, [], node);
    hide WellFormed;
    ValidWritten(job, st, tr, [], node, st.nextId);
  }

  lemma Stamped(fs: Fs, fs': Fs, d: Path)
    requires d != [] && Erase(fs') == Overlay(Erase(fs), Directories(d, |d|))
    ensures IsDir(fs', d) && fs'[d].view == Dir(ROOT_0755)
  {
    hide Directories;
    assert d in Directories(d, |d|);
    assert d in Erase(fs');
  }

  /** `copy_context_tree` at the top, for a directory, once its entry limit is checked. */
  method CopyTopDirectory(job: Job, st: State, ghost tr: Trace, ghost under: Layer) returns (r: Outcome, st': State, ghost tr': Trace)
    requires job.top in job.src && job.src[job.top].view.Dir?
    requires Prepared(job, st, tr, |job.dest|, under) && st.seen < job.limit
    ensures Why(job, tr.base, r)
    ensures r.Success? ==> Complete(job, st', tr', under) && tr'.firstId == tr.firstId && WritableBelow(job, job.top)
  {
    var s, d := job.top, job.dest;
    CountedStays(job, st, tr, s);
    hide WritableBelow, Complete, Valid, Why, WellFormed, PlainPath, Erase, Overlay, Image, Directories, DirMade, Partial, DirsTo;
    var st1 := st.(seen := st.seen + 1);
    ghost var tr1 := tr.(ahead := tr.ahead - {s});
    r, st1, tr1 := StampDestination(job, st1, tr1);
    if !r.Success? {
      return r, st1, tr1;
    }
    FilledFrom(job, tr, st1, tr1);
    ghost var done;
    r, st', tr', done := CopyChildren(job, st1, tr1, s, d);
    if r.Success? {
      PartialParts(job, st1, tr1, st', tr', s, d, done);
      FilledIsComplete(job, st, tr, under, st1, tr1, st', tr', done);
    }
  }

  lemma FilledFrom(job: Job, tr: Trace, st1: State, tr1: Trace)
    requires job.top in job.src && PlainPath(job.dest) && Valid(job, st1, tr1)
    requires OnlyDirectoriesMade(st1, tr1, job.dest, |job.dest|) && DirsTo(st1.dst, job.dest, |job.dest|)
    requires tr.ahead == AtOrBelow(job.src, job.top) && tr1.ahead == tr.ahead - {job.top}
    ensures DirMade(job, st1, tr1, job.top, job.dest)
  {
    hide Valid, PlainPath;
    assert Back(job.dest, job.top, job.top) == job.dest;
    assert job.dest[..|job.dest|] == job.dest;
    forall q | q in job.src && job.top < q ensures q in tr1.ahead {
    }
  }

  lemma AllAreDone(job: Job, tr: Trace, tr1: Trace, tr': Trace, done: set<Name>)
    requires WellFormed(job.src) && tr1.ahead <= AtOrBelow(job.src, job.top) && job.top !in tr1.ahead
    requires PartialAhead(job.src, tr1.ahead, tr'.ahead, job.top, done)
    requires forall n {:trigger job.top + [n]} :: job.top + [n] in job.src ==> n in done
    ensures tr'.ahead == {}
  {
    forall q | q in tr1.ahead ensures q !in tr'.ahead {
      PrefixCases(job.top, q);
      BelowSomeChild(job.src, job.top, q);
    }
  }

  lemma FilledIsComplete(job: Job, st: State, tr: Trace, under: Layer, st1: State, tr1: Trace, st': State, tr': Trace, done: set<Name>)
    requires job.top in job.src && job.src[job.top].view.Dir?
    requires Prepared(job, st, tr, |job.dest|, under)
    requires DirMade(job, st1, tr1, job.top, job.dest) && Partial(job, st1, tr1, st', tr', job.top, job.dest, done)
    requires forall n {:trigger job.top + [n]} :: job.top + [n] in job.src ==> n in done
    requires st1.dst[job.dest].view == Dir(ROOT_0755)
    requires Erase(st1.dst) == Overlay(Erase(st.dst), if job.dest == [] then map[[] := Dir(ROOT_0755)] else Directories(job.dest, |job.dest|))
    requires Erase(st'.dst) == Overlay(Erase(st1.dst), Image(job.src, job.top, job.dest, Dir(ROOT_0755)))
    ensures Complete(job, st', tr', under)
  {
    var s, d := job.top, job.dest;
    PartialParts(job, st1, tr1, st', tr', s, d, done);
    hide Valid, WellFormed, PlainPath, Erase, Overlay, Image, Directories, DirsTo, OnlyDirectoriesMade, DirsAbove, PartialTree, PartialAhead, PartialOrigin;
    WholeFiles(job, tr1, tr', s, d, done);
    AllAreDone(job, tr, tr1, tr', done);
    if d == [] {
      MakeThenFill(Erase(st.dst), job.src, s, d, Dir(ROOT_0755));
    } else {
      DirectoriesTwice(under, d, |d|);
    }
    DirectoriesThenImage(under, job.src, s, d, |d|);
  }

  lemma TooManyAtTop(job: Job, st: State, tr: Trace, k: nat, under: Layer)
    requires job.top in job.src && Prepared(job, st, tr, k, under) && st.seen >= job.limit
    ensures Why(job, tr.base, TooManyEntries)
  {
    hide Valid, Why, PlainPath, OnlyDirectoriesMade, DirsTo, Erase, Overlay, Directories;
    assert job.top in tr.ahead;
    TooManyIsTooMany(job, st, tr, job.top);
  }

  /** The directories above the destination are there, and the entry itself is copied. */
  method CopyTop(job: Job, st: State, ghost tr: Trace, ghost k: nat, ghost under: Layer) returns (r: Outcome, st': State, ghost tr': Trace)
    requires job.top in job.src && !job.src[job.top].view.Link? && (job.dest == [] ==> job.src[job.top].view.Dir?)
    requires Prepared(job, st, tr, k, under) && k == if job.src[job.top].view.Dir? then |job.dest| else |job.dest| - 1
    ensures Why(job, tr.base, r)
    ensures r.Success? ==> Complete(job, st', tr', under) && tr'.firstId == tr.firstId
    ensures r.Success? && (forall i :: 0 <= i < k ==> |job.dest[i]| <= NAME_MAX) ==> Writable(job)
  {
    hide Prepared, Why, Complete, WritableBelow, AtOrBelow;
    st', tr' := st, tr;
    if st.seen >= job.limit {
      TooManyAtTop(job, st, tr, k, under);
      return TooManyEntries, st', tr';
    }
    if job.src[job.top].view.Special? {
      SpecialBelow(job, tr.base, job.top);
      return Unsupported, st', tr';
    }
    if job.src[job.top].view.Dir? {
      r, st', tr' := CopyTopDirectory(job, st, tr, under);
    } else {
      r, st', tr' := CopyTopFile(job, st, tr, under);
    }
    if r.Success? {
      CompleteFits(job, st', tr', under);
    }
  }

  /** `COPY --link`, from the resolved source `job.top` to the final destination
      path `job.dest`. When it succeeds, the root is what it was with the copy's
      own layer stacked on it; when it does not, one of the limits was exceeded. */
  method CopyLinked(job: Job, st: State, ghost tr: Trace) returns (r: Outcome, st': State, ghost tr': Trace)
    requires Fresh(job, st, tr) && !job.src[job.top].view.Link? && (job.dest == [] ==> job.src[job.top].view.Dir?)
    ensures Why(job, st.dst, r)
    ensures r.Success? ==> Complete(job, st', tr', Erase(st.dst)) && tr'.firstId == st.nextId && Writable(job)
  {
    hide Fresh, Valid, Why, WellFormed, Overlay, Erase, Directories, Complete, SourceTree, PlainPath, OnlyDirectoriesMade, DirsTo, WritableBelow;
    FreshTop(job, st, tr);
    var k := if job.src[job.top].view.Dir? then |job.dest| else |job.dest| - 1;
    FreshIsValid(job, st, tr, k);
    ghost var tr1;
    r, st', tr1 := EnsureLinkDirectories(job, st, tr, job.dest, k);
    if !r.Success? {
      return r, st', tr1;
    }
    r, st', tr' := CopyTop(job, st', tr1, k, Erase(st.dst));
  }

  /** Two copied files are one file at the destination exactly when their
      sources were one file, and none of them is a file that was there before. */
  lemma LinksPreserved(job: Job, st: State, tr: Trace, p: Path, q: Path)
    requires Valid(job, st, tr) && FilesFrom(job, tr, job.top, job.dest)
    requires job.dest <= p && Back(job.top, job.dest, p) in job.src && job.src[Back(job.top, job.dest, p)].view.File?
    requires job.dest <= q && Back(job.top, job.dest, q) in job.src && job.src[Back(job.top, job.dest, q)].view.File?
    ensures p in st.dst && q in st.dst
    ensures st.dst[p].id == st.dst[q].id <==> job.src[Back(job.top, job.dest, p)].id == job.src[Back(job.top, job.dest, q)].id
    ensures st.dst[p].id >= tr.firstId
  {
    assert p in tr.origin && q in tr.origin;
  }

  ghost function BaseName(s: string): string {
    s[LastSlash(s) + 1..]
  }

  lemma AfterLastSlash(s: string, above: string, n: string)
    requires "/" + s == above + "/" + n && '/' !in n
    ensures BaseName(s) == n
  {
    hide LastSlash;
    var k := LastSlash(s);
    forall i | |above| < i < |"/" + s| ensures ("/" + s)[i] != '/' {
      assert ("/" + s)[i] == n[i - |above| - 1];
    }
    assert ("/" + s)[|above|] == '/';
    assert forall i :: 0 <= i < |s| ==> s[i] == ("/" + s)[i + 1];
    assert k == |above| - 1;
    assert s[k + 1..] == ("/" + s)[|above| + 1..] == n;
  }

  lemma BaseNameIsLast(s: string)
    requires SourcePath(s) && s != "."
    ensures Split(s) != [] && BaseName(s) == Split(s)[|Split(s)| - 1]
  {
    hide Split, LastSlash;
    var p := Split(s);
    assert Spelled([]) == "" && p != [];
    AfterLastSlash(s, Spelled(Parent(p)), p[|p| - 1]);
  }

  /** Where an entry of kind `view` goes: a file copied into a directory keeps its source name. */
  ghost function DestinationPath(view: View, source: string, dest: string, destIsDir: bool): Path {
    if !view.Dir? && destIsDir then Split(dest) + [BaseName(source)] else Split(dest)
  }

  /** The same on the texts: a directory goes to the destination itself, and so
      does anything else unless the destination is a directory, which it then
      enters under what follows the last slash of its source. */
  ghost predicate Lands(view: View, source: string, dest: string, destIsDir: bool, d: Path) {
    var into := if dest == "/" then "" else dest;
    if view.Dir? || !destIsDir then Spelled(d) == into
    else exists i :: 0 <= i <= |source| && (i == 0 || source[i - 1] == '/') && '/' !in source[i..] && Spelled(d) == into + "/" + source[i..]
  }

  /** The destination path, with `join_dest_path`. */
  method Destination(view: View, source: string, dest: string, destIsDir: bool) returns (r: Text)
    requires SourcePath(source) && (dest == "/" || EntryPath(dest)) && (source == "." ==> view.Dir?)
    ensures var d := DestinationPath(view, source, dest, destIsDir);
            && PlainPath(d) && Lands(view, source, dest, destIsDir, d)
            && (r.Refused? <==> !view.Dir? && |Spelled(d)| > MAX_COPY_PATH_LEN)
            && (r.Text? ==> Split(r.text) == d)
  {
    hide Split, Spelled, PlainPath, SourcePath, EntryPath;
    DestinationText(view, source, dest, destIsDir);
    if view.Dir? || !destIsDir {
      return Text(dest);
    }
    var base := source[LastSlash(source) + 1..];
    var path := if dest == "/" then "/" + base else dest + "/" + base;
    assert "" + "/" == "/" && path == Spelled(DestinationPath(view, source, dest, destIsDir));
    if |path| > MAX_COPY_PATH_LEN {
      return Refused(NameTooLong);
    }
    return Text(path);
  }

  lemma DestinationText(view: View, source: string, dest: string, destIsDir: bool)
    requires SourcePath(source) && (dest == "/" || EntryPath(dest)) && (source == "." ==> view.Dir?)
    ensures var d := DestinationPath(view, source, dest, destIsDir);
            var into := if dest == "/" then "" else dest;
            && PlainPath(d) && Split(Spelled(d)) == d
            && Spelled(d) == (if !view.Dir? && destIsDir then into + "/" + BaseName(source) else into)
            && (!(!view.Dir? && destIsDir) ==> Split(dest) == d && |Spelled(d)| <= MAX_COPY_PATH_LEN)
  {
    hide Split, Spelled, EntryPath, BaseName, SourcePath;
    IntoText(dest);
    if !view.Dir? && destIsDir {
      BaseNameIsLast(source);
      SourceNameIsPlain(source);
      SpelledNext(Split(dest), BaseName(source));
    }
    SplitSpelled(DestinationPath(view, source, dest, destIsDir));
  }

  lemma IntoText(dest: string)
    requires dest == "/" || EntryPath(dest)
    ensures PlainPath(Split(dest)) && Spelled(Split(dest)) == (if dest == "/" then "" else dest) && |Spelled(Split(dest))| <= MAX_COPY_PATH_LEN
  {
    assert dest == "/" ==> Split(dest) == [] && Spelled([]) == "" by {
      LeadingSlash("");
      JoinNothing();
      assert "/" + "" == "/";
    }
  }

  lemma SourceNameIsPlain(source: string)
    requires SourcePath(source) && source != "."
    ensures forall i :: 0 <= i < |Split(source)| ==> Split(source)[i] != "." && Split(source)[i] != ".."
  {
  }

  lemma SpelledNext(p: Path, n: Name)
    ensures Spelled(p + [n]) == Spelled(p) + "/" + n
  {
    assert Parent(p + [n]) == p;
  }

  /** The files of a copy of `s` to `d` are linked to one another as their sources are, and to nothing older. */
  ghost predicate SameLinks(src: Fs, s: Path, d: Path, fs: Fs, firstId: nat) {
    forall p, q :: d <= p && Back(s, d, p) in src && src[Back(s, d, p)].view.File? &&
                   d <= q && Back(s, d, q) in src && src[Back(s, d, q)].view.File? ==>
      && p in fs && q in fs && fs[p].id >= firstId
      && (fs[p].id == fs[q].id <==> src[Back(s, d, p)].id == src[Back(s, d, q)].id)
  }

  /** `spore_build_copy_apply` with the LINK destination policy. */
  method Apply(root: Fs, nextId: nat, input: Fs, nlink: map<nat, nat>, source: string, dest: string, destIsDir: bool, entries: nat)
    returns (r: Outcome, root': Fs, ghost s: Path)
    requires WellFormed(root) && WellFormed(input) && SourceTree(Job(input, nlink, 0, [], []))
    ensures !(SourcePath(source) && (dest == "/" || EntryPath(dest)) && entries <= MAX_ENTRIES) ==> r.BadRequest?
    ensures r.Unresolved? ==> r.error == NameTooLong || ResolveText(input, source) == Fails(r.error)
    ensures r.BadRequest? || r.Unresolved? || r.NoTarget? ==> root' == root
    ensures SourcePath(source) && (dest == "/" || EntryPath(dest)) && entries <= MAX_ENTRIES
            && ResolveText(input, source).At? && !r.Unresolved? ==>
              && ResolveText(input, source) == At(s) && s in input
              && var d := DestinationPath(input[s].view, source, dest, destIsDir);
                 var limit := if entries == 0 then MAX_ENTRIES else entries;
                 && Lands(input[s].view, source, dest, destIsDir, d)
                 && (r.BadRequest? <==> !input[s].view.Dir? && |Spelled(d)| > MAX_COPY_PATH_LEN)
                 && (r.NoTarget? <==> !input[s].view.Dir? && d == [])
                 && (r.WrongCount? ==> entries != 0 && entries != |AtOrBelow(input, s)|)
                 && (!r.BadRequest? && !r.NoTarget? && !r.WrongCount? ==> Why(Job(input, nlink, limit, s, d), root, r))
                 && (r.Success? ==>
                       && Writable(Job(input, nlink, limit, s, d))
                       && (entries == 0 || entries == |AtOrBelow(input, s)|)
                       && Erase(root') == Overlay(Erase(root), CopyLayer(input, s, d))
                       && Arrives(input, s, d, root') && RestStays(input, s, d, root, root')
                       && SameLinks(input, s, d, root', nextId))
    ensures r.Success? ==> SourcePath(source) && (dest == "/" || EntryPath(dest)) && entries <= MAX_ENTRIES && ResolveText(input, source).At?
  {
    hide WellFormed, Why, Writable, ResolveText, Split, Spelled, Erase, Overlay, SameLinks, SourceTree, CopyLayer, DestinationPath, EntryPath, SourcePath, Lands, Arrives, RestStays;
    root', s := root, [];
    var sourceOk := ValidSourcePath(source);
    var destOk := ValidEntryPath(dest);
    if !sourceOk || (dest != "/" && !destOk) || entries > MAX_ENTRIES {
      r := BadRequest;
      return;
    }
    var resolved := ResolveSource(input, source);
    if resolved.Refused? {
      r := Unresolved(resolved.error);
      return;
    }
    s := ResolveText(input, source).path;
    SourceFound(input, nlink, source, s, resolved.text);
    r, root' := ApplyFrom(root, nextId, input, nlink, source, dest, destIsDir, entries, if resolved.text == "." then [] else Split(resolved.text));
  }

  /** Where a source that was found goes, and whether it can. */
  method ApplyFrom(root: Fs, nextId: nat, input: Fs, nlink: map<nat, nat>, source: string, dest: string, destIsDir: bool, entries: nat, s: Path)
    returns (r: Outcome, root': Fs)
    requires WellFormed(root) && SourcePath(source) && (dest == "/" || EntryPath(dest)) && entries <= MAX_ENTRIES
    requires ResolveText(input, source) == At(s) && IsDir(input, []) && s in input && !input[s].view.Link?
    requires forall limit: nat, d :: limit <= MAX_ENTRIES ==> SourceTree(Job(input, nlink, limit, s, d))
    ensures !r.Unresolved? && (r.BadRequest? || r.NoTarget? ==> root' == root)
    ensures var d := DestinationPath(input[s].view, source, dest, destIsDir);
            var limit := if entries == 0 then MAX_ENTRIES else entries;
            && Lands(input[s].view, source, dest, destIsDir, d)
            && (r.BadRequest? <==> !input[s].view.Dir? && |Spelled(d)| > MAX_COPY_PATH_LEN)
            && (r.NoTarget? <==> !input[s].view.Dir? && d == [])
            && (r.WrongCount? ==> entries != 0 && entries != |AtOrBelow(input, s)|)
            && (!r.BadRequest? && !r.NoTarget? && !r.WrongCount? ==> Why(Job(input, nlink, limit, s, d), root, r))
            && (r.Success? ==>
                  && Writable(Job(input, nlink, limit, s, d))
                  && (entries == 0 || entries == |AtOrBelow(input, s)|)
                  && Erase(root') == Overlay(Erase(root), CopyLayer(input, s, d))
                  && Arrives(input, s, d, root') && RestStays(input, s, d, root, root')
                  && SameLinks(input, s, d, root', nextId))
  {
    hide WellFormed, Writable, ResolveText, Split, Spelled, Erase, Overlay, SameLinks, PlainPath, SourceTree, CopyLayer, DestinationPath, EntryPath, SourcePath, Lands, Arrives, RestStays;
    root' := root;
    var view := input[s].view;
    OnlyRootIsDot(input, source, s);
    var path := Destination(view, source, dest, destIsDir);
    RootIsShort();
    if path.Refused? {
      r := BadRequest;
      return;
    }
    var d := Split(path.text);
    if !view.Dir? && d == [] {
      r := NoTarget;
      return;
    }
    r, root' := ApplyResolved(root, nextId, Job(input, nlink, if entries == 0 then MAX_ENTRIES else entries, s, d), entries);
  }

  lemma RootIsShort()
    ensures |Spelled([])| <= MAX_COPY_PATH_LEN
  {
  }

  /** The rest of it, once source and destination are known. */
  method ApplyResolved(root: Fs, nextId: nat, job: Job, entries: nat) returns (r: Outcome, root': Fs)
    requires WellFormed(root) && SourceTree(job) && PlainPath(job.dest)
    requires !job.src[job.top].view.Link? && (job.dest == [] ==> job.src[job.top].view.Dir?)
    ensures r.WrongCount? ==> entries != 0 && entries != |AtOrBelow(job.src, job.top)|
    ensures !r.WrongCount? ==> Why(job, root, r)
    ensures r.Success? ==>
              && Writable(job)
              && (entries == 0 || entries == |AtOrBelow(job.src, job.top)|)
              && Erase(root') == Overlay(Erase(root), CopyLayer(job.src, job.top, job.dest))
              && Arrives(job.src, job.top, job.dest, root') && RestStays(job.src, job.top, job.dest, root, root')
              && SameLinks(job.src, job.top, job.dest, root', nextId)
  {
    var st := State(root, nextId, 0, 0, [], 0);
    ghost var tr := Trace(root, nextId, root.Keys, AtOrBelow(job.src, job.top), map[], map[]);
    var st';
    ghost var tr';
    assert Fresh(job, st, tr);
    hide Fresh, Complete, Valid, WellFormed, Why, Writable, Erase, Overlay, SameLinks, PlainPath, SourceTree, CopyLayer, Arrives, RestStays;
    r, st', tr' := CopyLinked(job, st, tr);
    root' := st'.dst;
    if r.Success? {
      CompleteSays(job, st', tr', Erase(root));
      AllArrives(job, root, root');
      if entries != 0 && st'.seen != entries {
        r := WrongCount;
      }
    }
  }

  lemma SourceFound(input: Fs, nlink: map<nat, nat>, source: string, s: Path, text: string)
    requires WellFormed(input) && SourceTree(Job(input, nlink, 0, [], [])) && ResolveText(input, source) == At(s) && AllComponents(s)
    requires text == (if s == [] then "." else Join(s))
    ensures (if text == "." then [] else Split(text)) == s && s in input && !input[s].view.Link? && IsDir(input, [])
    ensures forall limit: nat, d :: limit <= MAX_ENTRIES ==> SourceTree(Job(input, nlink, limit, s, d))
  {
    hide Split, Resolve;
    ResolvedIsReal(input, [], Split(source), MAX_SYMLINK_DEPTH);
    SplitJoin(s);
    SplitComponent(".");
    assert s != [] ==> s[0] != ".";
  }

  lemma OnlyRootIsDot(input: Fs, source: string, s: Path)
    requires ResolveText(input, source) == At(s) && IsDir(input, [])
    ensures source == "." ==> IsDir(input, s)
  {
    if source == "." {
      SplitComponent(".");
      assert ["."][1..] == [];
      assert Resolve(input, [], ["."], MAX_SYMLINK_DEPTH) == Resolve(input, [], [], MAX_SYMLINK_DEPTH);
    }
  }

  lemma CountIsExact(job: Job, st: State, tr: Trace)
    requires Valid(job, st, tr) && tr.ahead == {}
    ensures st.seen == |AtOrBelow(job.src, job.top)|
  {
    hide SourceTree, WellFormed, Tracks, TableOk;
  }

  lemma AllArrives(job: Job, root: Fs, root': Fs)
    requires job.top in job.src && Writable(job) && Erase(root') == Overlay(Erase(root), CopyLayer(job.src, job.top, job.dest))
    ensures Arrives(job.src, job.top, job.dest, root') && RestStays(job.src, job.top, job.dest, root, root')
  {
    hide Erase, Overlay, CopyLayer, Arrives, RestStays;
    forall q | q in job.src && job.top <= q ensures !job.src[q].view.Special? {
      PrefixCases(job.top, q);
    }
    LayerArrives(job.src, job.top, job.dest, Erase(root), root');
    LayerRestStays(job.src, job.top, job.dest, root, root');
  }

  lemma CompleteFits(job: Job, st: State, tr: Trace, under: Layer)
    requires job.top in job.src && Complete(job, st, tr, under)
    ensures |AtOrBelow(job.src, job.top)| <= job.limit
  {
    hide Erase, Overlay, CopyLayer, SourceTree, WellFormed, Tracks, TableOk, FilesFrom;
    CountIsExact(job, st, tr);
  }

  lemma CompleteSays(job: Job, st: State, tr: Trace, under: Layer)
    requires job.top in job.src && Complete(job, st, tr, under)
    ensures Erase(st.dst) == Overlay(under, CopyLayer(job.src, job.top, job.dest))
    ensures SameLinks(job.src, job.top, job.dest, st.dst, tr.firstId) && st.seen == |AtOrBelow(job.src, job.top)|
  {
    hide Valid, FilesFrom, Erase, Overlay, CopyLayer;
    CountIsExact(job, st, tr);
    forall p, q | job.dest <= p && Back(job.top, job.dest, p) in job.src && job.src[Back(job.top, job.dest, p)].view.File? &&
                  job.dest <= q && Back(job.top, job.dest, q) in job.src && job.src[Back(job.top, job.dest, q)].view.File?
      ensures && p in st.dst && q in st.dst && st.dst[p].id >= tr.firstId
              && (st.dst[p].id == st.dst[q].id <==> job.src[Back(job.top, job.dest, p)].id == job.src[Back(job.top, job.dest, q)].id)
    {
      LinksPreserved(job, st, tr, p, q);
    }
  }

  // ---- What the layer is good for ----

  lemma LayerStands(src: Fs, s: Path, d: Path, p: Path)
    requires WellFormed(src) && s in src && p in CopyLayer(src, s, d)
    ensures !Shadowed(CopyLayer(src, s, d), p)
  {
    hide Directories, Image;
    var above, image := Directories(d, if d == [] then 0 else |d| - 1), Image(src, s, d, CopiedTop(src[s].view));
    forall k | 0 <= k < |p| && p[..k] in CopyLayer(src, s, d) ensures CopyLayer(src, s, d)[p[..k]].Dir? {
      if p[..k] in image {
        assert d <= p[..k] <= p;
        if p in image {
          PrefixesAreDirs(src, Back(s, d, p));
          assert Back(s, d, p)[..|s| + k - |d|] == Back(s, d, p[..k]);
        }
      }
    }
  }

  /** Any layer that can be stacked on itself stacks the same when it is first laid on an empty root. */
  lemma OverlayAlone(base: Layer, layer: Layer)
    requires [] in base && base[[]].Dir? && forall p :: p in layer ==> !Shadowed(layer, p)
    ensures Overlay(base, Overlay(map[[] := base[[]]], layer)) == Overlay(base, layer)
  {
    hide Overlay;
    var empty: Layer := map[[] := base[[]]];
    assert forall p :: !Shadowed(empty, p);
    var root: Path := [];
    assert !Shadowed(layer, root);
    assert Overlay(empty, layer) == empty + layer;
    assert Overlay(base, empty) == base;
    OverlayOfUnion(base, empty, layer);
  }

  lemma OverlayOfUnion(base: Layer, empty: Layer, layer: Layer)
    requires Overlay(base, empty) == base && (forall p :: !Shadowed(empty, p)) && forall p :: p in empty ==> !Shadowed(layer, p)
    requires empty.Keys == {[]} && empty[[]].Dir?
    ensures Overlay(base, empty + layer) == Overlay(base, layer)
  {
    hide Overlay;
    var both := empty + layer;
    forall p ensures Shadowed(both, p) <==> Shadowed(layer, p) {
      if Shadowed(layer, p) {
        var k :| 0 <= k < |p| && p[..k] in layer && !layer[p[..k]].Dir?;
        assert p[..k] in both && both[p[..k]] == layer[p[..k]];
      }
    }
    assert [] in Overlay(base, empty);
    assert Overlay(base, both).Keys == Overlay(base, layer).Keys;
  }

  /** The layer does not depend on the root: built alone, on an empty root with
      the same top directory, it stacks on any root to the same effect, and
      stacking it again changes nothing. */
  lemma LayerIsIndependent(base: Layer, src: Fs, s: Path, d: Path)
    requires WellFormed(src) && s in src && [] in base && base[[]].Dir?
    ensures var layer := CopyLayer(src, s, d);
            && Overlay(base, Overlay(map[[] := base[[]]], layer)) == Overlay(base, layer)
            && Overlay(Overlay(base, layer), layer) == Overlay(base, layer)
  {
    var layer := CopyLayer(src, s, d);
    forall p | p in layer ensures !Shadowed(layer, p) {
      LayerStands(src, s, d, p);
    }
    hide CopyLayer, Overlay;
    OverlayIdempotent(base, layer);
    OverlayAlone(base, layer);
  }
}
