/** The mounts of a RUN step as a transaction on the rootfs and on what is
    mounted: cache targets and then bind targets are prepared and mounted in
    order, and unmounted and cleaned up in the reverse order
    (guest/minimal-initrd/build_run.c). While a target is mounted over, its own
    node is out of the RUN step's reach. */
module RunMounts {
  import opened Tree
  import opened PathText
  import opened ConfinedWalk
  import opened Rootfs
  import opened TargetDirectories
  import opened MountTargets

  /** What a record lets its cleanup remove: nothing when the target was never had. */
  ghost function Ours(m: Mount): set<Path> {
    if m.identity.Unknown? then {} else Created(m)
  }

  ghost function OursFrom(ms: seq<Mount>, i: nat): (s: set<Path>)
    ensures forall q :: q in s <==> exists j :: i <= j < |ms| && q in Ours(ms[j])
    decreases |ms| - i
  {
    if i >= |ms| then {} else Ours(ms[i]) + OursFrom(ms, i + 1)
  }

  /** No two targets lie on one way. */
  ghost predicate Antichain(ts: seq<Target>) {
    forall i, j :: 0 <= i < |ts| && 0 <= j < |ts| && i != j ==> !(ts[i].path <= ts[j].path)
  }

  ghost predicate AllValid(ts: seq<Target>) {
    forall i :: 0 <= i < |ts| ==> ValidTarget(ts[i])
  }

  ghost predicate Recorded(m: Mount) {
    ValidTarget(m.target) && |m.created| <= |Stem(m.target)|
  }

  /** What a later mount made is not on the way to an earlier one, nor below it. */
  ghost predicate Layered(ms: seq<Mount>) {
    forall i, j, q :: 0 <= i < j < |ms| && q in Ours(ms[j]) ==> !(q <= ms[i].target.path) && !(ms[i].target.path < q)
  }

  /** The RUN step left what was made for each mount as it was. */
  ghost predicate AllKept(fs: Fs, ms: seq<Mount>) {
    forall i :: 0 <= i < |ms| ==> ms[i].identity.Unknown? || Kept(fs, ms[i])
  }

  ghost predicate CleansWell(fs: Fs, ms: seq<Mount>) {
    forall i :: 0 <= i < |ms| ==> ms[i].identity.Inode? && Unfilled(fs, ms[i])
  }

  // ---- Cleaning up in reverse ----

  /** Taking away the newer paths first and then the older ones is taking away
      both, as no newer one holds an older one. */
  lemma RestoredTwice(fs: Fs, newer: set<Path>, older: set<Path>)
    requires forall q, a :: q in newer && a in older ==> !(q <= a)
    ensures Restored(Restored(fs, newer), older) == Restored(fs, older + newer)
  {
    var once, both := Restored(fs, newer), older + newer;
    forall q | q in fs && q in newer
      ensures OnlyOurs(fs, q, newer) <==> OnlyOurs(fs, q, both)
    {
      assert forall e :: e in fs && q <= e && e in both ==> e in newer;
    }
    forall q | q in fs && q in older
      ensures q in once
      ensures OnlyOurs(once, q, older) <==> OnlyOurs(fs, q, both)
    {
      assert q !in newer by { assert q <= q; }
      if OnlyOurs(once, q, older) {
        forall e | e in fs && q <= e ensures e in both {
          assert e in once ==> e in older;
        }
      }
      if OnlyOurs(fs, q, both) {
        forall e | e in once && q <= e ensures e in older {
          assert OnlyOurs(fs, e, both) by {
            assert forall d :: d in fs && e <= d ==> q <= d;
          }
        }
      }
    }
  }

  lemma OursIsOnTheWay(m: Mount)
    requires Recorded(m)
    ensures forall q :: q in Ours(m) ==> q <= m.target.path
  {
    hide Created;
    var p := m.target.path;
    assert Stem(m.target) <= p;
  }

  lemma KeptStays(fs: Fs, fs': Fs, m: Mount)
    requires Recorded(m) && Kept(fs, m)
    requires forall q :: q in fs' ==> q in fs && fs'[q] == fs[q]
    requires forall q :: q in fs && q <= m.target.path ==> q in fs'
    ensures Kept(fs', m)
  {
    hide ChainIntact;
    assert Stem(m.target) <= m.target.path;
    StemStays(fs, fs', Stem(m.target), m.created);
    assert m.target.path <= m.target.path;
  }

  /** Where the cleanup stands: the mounts from `i` on are cleaned up. */
  ghost predicate Cleaning(fs: Fs, ms: seq<Mount>, i: nat, fs': Fs, ok: bool) {
    && i <= |ms| && Layered(ms) && AllKept(fs, ms)
    && fs' == Restored(fs, OursFrom(ms, i))
    && (ok <==> forall j :: i <= j < |ms| ==> ms[j].identity.Inode? && Unfilled(fs, ms[j]))
  }

  ghost predicate AllRecorded(ms: seq<Mount>) {
    forall i :: 0 <= i < |ms| ==> Recorded(ms[i])
  }

  /** Cleaning up the later mounts leaves an earlier one as it was. */
  lemma EarlierUntouched(fs: Fs, ms: seq<Mount>, i: nat, j: nat, fs': Fs, ok: bool)
    requires Cleaning(fs, ms, j, fs', ok) && AllRecorded(ms) && i < j <= |ms| && ms[i].identity.Inode?
    ensures Kept(fs', ms[i]) && (Unfilled(fs', ms[i]) <==> Unfilled(fs, ms[i]))
  {
    hide Kept;
    var m := ms[i];
    forall q | q in fs && q !in fs' ensures !(q <= m.target.path) && !(m.target.path < q) {
      assert q in OursFrom(ms, j);
    }
    KeptStays(fs, fs', m);
  }

  lemma CleanedOne(fs: Fs, ms: seq<Mount>, i: nat, fs': Fs, ok: bool, fs'': Fs, done: bool)
    requires Cleaning(fs, ms, i + 1, fs', ok) && AllRecorded(ms) && i < |ms|
    requires ms[i].identity.Unknown? ==> !done && fs'' == fs'
    requires ms[i].identity.Inode? ==> fs'' == Restored(fs', Created(ms[i])) && (done <==> Unfilled(fs, ms[i]))
    ensures Cleaning(fs, ms, i, fs'', ok && done)
  {
    hide Kept, Unfilled, Restored, Created;
    var newer, older := OursFrom(ms, i + 1), Ours(ms[i]);
    assert OursFrom(ms, i) == older + newer;
    if ms[i].identity.Inode? {
      OursIsOnTheWay(ms[i]);
      forall q, a | q in newer && a in older ensures !(q <= a) {
        assert a <= ms[i].target.path;
      }
      RestoredTwice(fs, newer, older);
    } else {
      assert older + newer == newer;
    }
  }

  /** The target cleanup loops of `cleanup_build_cache_mounts` and
      `cleanup_build_context_binds`: every mount is cleaned up, last first,
      whether or not another one failed. */
  method CleanupMounts(fs: Fs, ms: seq<Mount>) returns (ok: bool, fs': Fs)
    requires WellFormed(fs) && NamesFit(fs) && AllRecorded(ms)
    ensures WellFormed(fs') && NamesFit(fs')
    ensures (exists i :: 0 <= i < |ms| && ms[i].identity.Unknown?) ==> !ok
    ensures Layered(ms) && AllKept(fs, ms) ==> fs' == Restored(fs, OursFrom(ms, 0)) && (ok <==> CleansWell(fs, ms))
  {
    hide WellFormed, NamesFit, Kept, Unfilled, Restored, Created, Cleaning, Layered, AllKept, OursFrom, ValidTarget;
    ok, fs' := true, fs;
    var i := |ms|;
    if Layered(ms) && AllKept(fs, ms) {
      CleaningStarts(fs, ms);
    }
    while i > 0
      invariant 0 <= i <= |ms| && WellFormed(fs') && NamesFit(fs')
      invariant forall j :: i <= j < |ms| && ms[j].identity.Unknown? ==> !ok
      invariant Layered(ms) && AllKept(fs, ms) ==> Cleaning(fs, ms, i, fs', ok)
    {
      i := i - 1;
      var m := ms[i];
      if Cleaning(fs, ms, i + 1, fs', ok) && m.identity.Inode? {
        EarlierUntouched(fs, ms, i, i + 1, fs', ok);
        BindUnfilled(fs, m);
      }
      ghost var before := fs';
      var done;
      if m.target.kind == Cache {
        done, fs' := CleanupCache(fs', m);
      } else {
        done, fs' := CleanupBind(fs', m);
      }
      if Cleaning(fs, ms, i + 1, before, ok) {
        CleanedOne(fs, ms, i, before, ok, fs', done);
      }
      ok := ok && done;
    }
    if Cleaning(fs, ms, 0, fs', ok) {
      CleaningEnds(fs, ms, fs', ok);
    }
  }

  lemma BindUnfilled(fs: Fs, m: Mount)
    ensures m.target.kind == Bind ==> Unfilled(fs, m)
  {
  }

  lemma CleaningStarts(fs: Fs, ms: seq<Mount>)
    requires Layered(ms) && AllKept(fs, ms)
    ensures Cleaning(fs, ms, |ms|, fs, true)
  {
    assert OursFrom(ms, |ms|) == {};
    assert Restored(fs, {}) == fs;
  }

  lemma CleaningEnds(fs: Fs, ms: seq<Mount>, fs': Fs, ok: bool)
    requires Cleaning(fs, ms, 0, fs', ok)
    ensures fs' == Restored(fs, OursFrom(ms, 0)) && (ok <==> CleansWell(fs, ms))
  {
  }

  // ---- Setting up in order ----

  /** `fs'` is `fs` with everything on the way to `ts`. */
  ghost predicate Grown(fs: Fs, first: nat, ts: seq<Target>, fs': Fs) {
    && (forall q :: q in fs' <==> q in fs || Reaches(ts, q))
    && (forall q :: q in fs ==> fs'[q] == fs[q])
    && (forall q :: q in fs' && q !in fs ==>
          fs'[q].id >= first && fs'[q].view == if Target(Bind, q) in ts then File(FILE_0644, []) else Dir(ROOT_0755))
  }

  /** The targets `ts` are had, `ms` records what was made for them, and
      cleaning up would take away just that. */
  ghost predicate Built(fs: Fs, first: nat, ts: seq<Target>, ms: seq<Mount>, fs': Fs, next': nat) {
    && |ms| == |ts| && (forall i :: 0 <= i < |ms| ==> ms[i].target == ts[i] && ms[i].identity.Inode?)
    && AllRecorded(ms) && Layered(ms) && AllKept(fs', ms) && CleansWell(fs', ms)
    && Root(fs', next') && first <= next' && Grown(fs, first, ts, fs')
    && (forall q :: q in OursFrom(ms, 0) <==> q in fs' && q !in fs)
  }

  lemma ReachesBoth(ts1: seq<Target>, ts2: seq<Target>, q: Path)
    ensures Reaches(ts1 + ts2, q) <==> Reaches(ts1, q) || Reaches(ts2, q)
  {
    if Reaches(ts1, q) {
      var e :| e in ts1 && q <= e.path;
      assert e in ts1 + ts2;
    }
    if Reaches(ts2, q) {
      var e :| e in ts2 && q <= e.path;
      assert e in ts1 + ts2;
    }
  }

  lemma GrownTwice(a: Fs, first: nat, ts1: seq<Target>, b: Fs, next: nat, ts2: seq<Target>, c: Fs)
    requires Grown(a, first, ts1, b) && Grown(b, next, ts2, c) && first <= next && Antichain(ts1 + ts2)
    ensures Grown(a, first, ts1 + ts2, c)
  {
    hide Reaches;
    var ts := ts1 + ts2;
    forall q ensures Reaches(ts, q) <==> Reaches(ts1, q) || Reaches(ts2, q) {
      ReachesBoth(ts1, ts2, q);
    }
    forall q | q in c && q !in a ensures Target(Bind, q) in ts <==> if q in b then Target(Bind, q) in ts1 else Target(Bind, q) in ts2 {
      if q in b && Target(Bind, q) in ts2 {
        NotOnTheWay(ts1, ts2, q);
      }
      if q !in b && Target(Bind, q) in ts1 {
        TargetReached(ts1, Target(Bind, q));
      }
    }
  }

  lemma TargetReached(ts: seq<Target>, t: Target)
    requires t in ts
    ensures Reaches(ts, t.path)
  {
    assert t.path <= t.path;
  }

  lemma NotOnTheWay(ts1: seq<Target>, ts2: seq<Target>, q: Path)
    requires Antichain(ts1 + ts2) && exists t :: t in ts2 && t.path == q
    ensures !Reaches(ts1, q)
  {
    var ts := ts1 + ts2;
    var j :| 0 <= j < |ts2| && ts2[j].path == q;
    assert ts[|ts1| + j] == ts2[j];
    forall e | e in ts1 ensures !(q <= e.path) {
      var i :| 0 <= i < |ts1| && ts1[i] == e;
      assert ts[i] == e;
    }
  }

  lemma OursOfBoth(ms1: seq<Mount>, ms2: seq<Mount>)
    ensures OursFrom(ms1 + ms2, 0) == OursFrom(ms1, 0) + OursFrom(ms2, 0)
  {
    hide Ours;
    var ms := ms1 + ms2;
    forall q | q in OursFrom(ms, 0) ensures q in OursFrom(ms1, 0) || q in OursFrom(ms2, 0) {
      var j :| 0 <= j < |ms| && q in Ours(ms[j]);
      assert if j < |ms1| then ms[j] == ms1[j] else ms[j] == ms2[j - |ms1|];
    }
    forall q | q in OursFrom(ms1, 0) ensures q in OursFrom(ms, 0) {
      var j :| 0 <= j < |ms1| && q in Ours(ms1[j]);
      assert q in Ours(ms[j]);
    }
    forall q | q in OursFrom(ms2, 0) ensures q in OursFrom(ms, 0) {
      var j :| 0 <= j < |ms2| && q in Ours(ms2[j]);
      assert q in Ours(ms[|ms1| + j]);
    }
  }

  lemma KeptGrows(fs: Fs, next: nat, ts: seq<Target>, fs': Fs, m: Mount)
    requires Root(fs, next) && Grown(fs, next, ts, fs') && Kept(fs, m)
    ensures Kept(fs', m)
  {
    hide ChainIntact, Reaches;
    StemStays(fs, fs', Stem(m.target), m.created);
  }

  lemma OursIsNew(fs: Fs, first: nat, ts: seq<Target>, ms: seq<Mount>, fs': Fs, next': nat, j: nat, q: Path)
    requires Built(fs, first, ts, ms, fs', next') && j < |ms| && q in Ours(ms[j])
    ensures q in fs' && q !in fs
  {
    hide Ours, Layered, AllKept, AllRecorded, CleansWell, Root, Grown;
    assert q in OursFrom(ms, 0);
  }

  lemma WayIsThere(fs: Fs, next: nat, m: Mount, q: Path)
    requires Root(fs, next) && Kept(fs, m) && q <= m.target.path
    ensures q in fs
  {
    PrefixesPresent(fs, next, m.target.path);
  }

  /** What is new lies on the way to a new target, so not below an old one. */
  lemma NotBelowOld(ts1: seq<Target>, ts2: seq<Target>, i: nat, q: Path)
    requires Antichain(ts1 + ts2) && i < |ts1| && Reaches(ts2, q)
    ensures !(ts1[i].path <= q)
  {
    var ts := ts1 + ts2;
    var e :| e in ts2 && q <= e.path;
    var j :| 0 <= j < |ts2| && ts2[j] == e;
    assert ts[i] == ts1[i] && ts[|ts1| + j] == e;
  }

  lemma LayeredTwice(a: Fs, first: nat, ts1: seq<Target>, ms1: seq<Mount>, b: Fs, next: nat, ts2: seq<Target>, ms2: seq<Mount>, c: Fs, next': nat)
    requires Built(a, first, ts1, ms1, b, next) && Built(b, next, ts2, ms2, c, next') && Antichain(ts1 + ts2)
    ensures Layered(ms1 + ms2)
  {
    hide Ours, OursFrom, Root, Kept, CleansWell, Reaches, Antichain;
    var ms := ms1 + ms2;
    forall i, j, q | 0 <= i < j < |ms| && q in Ours(ms[j])
      ensures !(q <= ms[i].target.path) && !(ms[i].target.path < q)
    {
      if i >= |ms1| {
        assert ms[i] == ms2[i - |ms1|] && ms[j] == ms2[j - |ms1|];
      } else if j >= |ms1| {
        OursIsNew(b, next, ts2, ms2, c, next', j - |ms1|, q);
        NotBelowOld(ts1, ts2, i, q);
        if q <= ms1[i].target.path {
          WayIsThere(b, next, ms1[i], q);
        }
      }
    }
  }

  lemma KeptTwice(a: Fs, first: nat, ts1: seq<Target>, ms1: seq<Mount>, b: Fs, next: nat, ts2: seq<Target>, ms2: seq<Mount>, c: Fs, next': nat)
    requires Built(a, first, ts1, ms1, b, next) && Built(b, next, ts2, ms2, c, next') && Antichain(ts1 + ts2)
    ensures AllKept(c, ms1 + ms2) && AllRecorded(ms1 + ms2) && CleansWell(c, ms1 + ms2)
  {
    hide Ours, OursFrom, Root, Kept, Reaches, Antichain, Recorded, Layered;
    var ms := ms1 + ms2;
    forall i | 0 <= i < |ms| ensures Kept(c, ms[i]) && Recorded(ms[i]) && Unfilled(c, ms[i]) {
      if i < |ms1| {
        KeptGrows(b, next, ts2, c, ms[i]);
        forall q | q in c && q !in b ensures !(ms[i].target.path < q) {
          NotBelowOld(ts1, ts2, i, q);
        }
      } else {
        assert ms[i] == ms2[i - |ms1|];
      }
    }
  }

  lemma BuiltTwice(a: Fs, first: nat, ts1: seq<Target>, ms1: seq<Mount>, b: Fs, next: nat, ts2: seq<Target>, ms2: seq<Mount>, c: Fs, next': nat)
    requires Built(a, first, ts1, ms1, b, next) && Built(b, next, ts2, ms2, c, next') && Antichain(ts1 + ts2)
    ensures Built(a, first, ts1 + ts2, ms1 + ms2, c, next')
  {
    hide Ours, Root, Kept, Reaches, Antichain, Layered, AllKept, AllRecorded, CleansWell;
    LayeredTwice(a, first, ts1, ms1, b, next, ts2, ms2, c, next');
    KeptTwice(a, first, ts1, ms1, b, next, ts2, ms2, c, next');
    GrownTwice(a, first, ts1, b, next, ts2, c);
    OursOfBoth(ms1, ms2);
  }

  lemma NothingBuilt(fs: Fs, nextId: nat)
    requires Root(fs, nextId)
    ensures Built(fs, nextId, [], [], fs, nextId)
  {
  }

  lemma OneBuilt(fs: Fs, nextId: nat, m: Mount, fs': Fs, nextId': nat)
    requires Root(fs, nextId) && ValidTarget(m.target) && Provided(fs, nextId, m, fs', nextId')
    ensures Built(fs, nextId, [m.target], [m], fs', nextId')
  {
    hide Created, Missing, ChainIntact, Grown, Root, Unfilled, Added;
    ChainFits(fs', Stem(m.target), m.created);
    OneGrown(fs, nextId, m.target, fs');
    OneUnfilled(fs, nextId, m, fs', nextId');
    assert OursFrom([m], 0) == Created(m);
    OneNew(fs, nextId, m, fs');
  }

  lemma OneNew(fs: Fs, nextId: nat, m: Mount, fs': Fs)
    requires Created(m) == Missing(fs, m.target.path) && Added(fs, nextId, m.target, fs')
    ensures forall q :: q in Created(m) <==> q in fs' && q !in fs
  {
    hide Created, Missing;
    assert forall q :: q in fs' <==> q in fs.Keys + Missing(fs, m.target.path);
  }

  lemma OneGrown(fs: Fs, nextId: nat, t: Target, fs': Fs)
    requires Added(fs, nextId, t, fs')
    ensures Grown(fs, nextId, [t], fs')
  {
    hide Missing;
    forall q ensures Reaches([t], q) <==> q <= t.path {
    }
    assert forall q :: q in fs' <==> q in fs.Keys + Missing(fs, t.path);
  }

  lemma OneUnfilled(fs: Fs, nextId: nat, m: Mount, fs': Fs, nextId': nat)
    requires Root(fs, nextId) && Provided(fs, nextId, m, fs', nextId')
    ensures Unfilled(fs', m)
  {
    hide Created, Missing, Kept, Root, Added;
    var p := m.target.path;
    OneNew(fs, nextId, m, fs');
    forall q | q in fs' && m.target.kind == Cache && m.created != [] ensures !(p < q) {
      assert p in Created(m);
      if p < q && q in fs {
        RootAbove(fs, nextId, p, q);
      }
    }
  }

  lemma RootAbove(fs: Fs, nextId: nat, p: Path, q: Path)
    requires Root(fs, nextId) && q in fs && p < q
    ensures p in fs
  {
    DirAbove(fs, p, q);
  }

  lemma Apart(ts: seq<Target>, t: Target, e: Target)
    requires Antichain(ts + [t]) && e in ts
    ensures !(e.path <= t.path)
  {
    var i :| 0 <= i < |ts| && ts[i] == e;
    assert (ts + [t])[i] == e && (ts + [t])[|ts|] == t;
  }

  /** What the way to a new target shares with the way to an earlier one is directories. */
  lemma SharedIsDir(fs: Fs, first: nat, ts: seq<Target>, ms: seq<Mount>, fs': Fs, next': nat, t: Target, q: Path)
    requires Built(fs, first, ts, ms, fs', next') && Antichain(ts + [t]) && Reaches(ts, q) && q <= t.path
    ensures IsDir(fs', q)
  {
    hide Ours, OursFrom, Layered, AllRecorded, CleansWell, Grown, Antichain, Kept;
    var e :| e in ts && q <= e.path;
    var l :| 0 <= l < |ts| && ts[l] == e;
    assert Kept(fs', ms[l]);
    Apart(ts, t, e);
    PrefixCases(q, e.path);
    KeptIsThere(fs', ms[l]);
    DirAbove(fs', q, e.path);
  }

  lemma KeptIsThere(fs: Fs, m: Mount)
    requires Kept(fs, m)
    ensures m.target.path in fs
  {
  }

  /** Whether a target can be had does not depend on the earlier ones. */
  lemma PreparableInTurn(fs: Fs, first: nat, ts: seq<Target>, ms: seq<Mount>, fs': Fs, next': nat, t: Target)
    requires Built(fs, first, ts, ms, fs', next') && Antichain(ts + [t])
    ensures Preparable(fs', t) <==> Preparable(fs, t)
  {
    hide Ours, OursFrom, Root, Kept, Layered, AllKept, AllRecorded, CleansWell, Reaches, Antichain;
    assert t in [t];
    NotOnTheWay(ts, [t], t.path);
    forall q | q in fs' && q !in fs && q < t.path ensures IsDir(fs', q) {
      SharedIsDir(fs, first, ts, ms, fs', next', t, q);
    }
  }

  lemma StrandsInTurn(fs: Fs, first: nat, ts: seq<Target>, ms: seq<Mount>, fs': Fs, next': nat, earlier: seq<Target>, t: Target)
    requires Built(fs, first, ts, ms, fs', next') && Antichain(ts + [t])
    ensures Strands(fs', earlier, t) <==> Strands(fs, ts + earlier, t)
  {
    hide Ours, OursFrom, Root, Kept, Layered, AllKept, AllRecorded, CleansWell, Reaches, TooLongAfter, Antichain;
    forall i: nat | i < |Stem(t)| ensures StrandsAt(fs', earlier, t, i) <==> StrandsAt(fs, ts + earlier, t, i) {
      var q := t.path[..i];
      ReachesBoth(ts, earlier, q);
      ReachesBoth(ts, earlier, t.path[..i + 1]);
      if Reaches(ts, q) {
        SharedIsDir(fs, first, ts, ms, fs', next', t, q);
      }
    }
  }

  lemma StrandedNotPreparable(fs: Fs, earlier: seq<Target>, t: Target)
    requires Strands(fs, earlier, t)
    ensures !Preparable(fs, t)
  {
  }

  /** Undoing what was built gives the tree it was built on. */
  lemma UndoneIsBase(fs: Fs, first: nat, ts: seq<Target>, ms: seq<Mount>, fs': Fs, next': nat)
    requires Root(fs, first) && Built(fs, first, ts, ms, fs', next')
    ensures Restored(fs', OursFrom(ms, 0)) == fs
  {
    hide Ours, OursFrom, Layered, AllRecorded, CleansWell, AllKept, Reaches;
    forall q, e | q in fs' && q !in fs && e in fs' && q <= e ensures e !in fs {
      PrefixCases(q, e);
      if e in fs {
        DirAbove(fs, q, e);
      }
    }
    forall q | q in fs' && q !in fs ensures q !in Restored(fs', OursFrom(ms, 0)) {
      assert OnlyOurs(fs', q, OursFrom(ms, 0));
    }
  }

  // ---- The mount table ----

  /** Where something can be mounted: the cache disk's own place, or a target. */
  datatype Place = CacheDisk | On(path: Path)

  /** One element of a state's `mounts`: what its prepare recorded, `bound` and `target_cleanup_required`. */
  datatype Record = Record(mount: Mount, bound: bool, cleanup: bool)

  /** `build_cache_mount_state`, and `build_context_bind_mount_state` with `disk` never set. */
  datatype MountState = MountState(disk: bool, records: seq<Record>)

  const NO_MOUNTS := MountState(false, [])

  /** What goes wrong beyond the tree: the source disk or its root is not there,
      a source cannot be opened or was `lost` while it was, a mount or a remount
      fails, an unmount fails, or a sync or close does. */
  datatype Faults = Faults(
    disk: bool, root: bool, sources: set<nat>, lost: set<nat>, mounts: set<nat>, remounts: set<nat>, stuck: set<Place>, closing: bool)

  function BoundPlaces(rs: seq<Record>): set<Place> {
    set r | r in rs && r.bound :: On(r.mount.target.path)
  }

  /** What a state says is mounted. */
  function Bound(st: MountState): set<Place> {
    BoundPlaces(st.records) + if st.disk then {CacheDisk} else {}
  }

  /** The targets to clean up: a target that is still mounted over cannot be. */
  function ToClean(rs: seq<Record>, stuck: set<Place>): seq<Mount> {
    if rs == [] then []
    else
      var before, last := ToClean(rs[..|rs| - 1], stuck), rs[|rs| - 1];
      if last.cleanup && !(last.bound && On(last.mount.target.path) in stuck) then before + [last.mount] else before
  }

  /** Nothing a cleanup of `st` does beyond the tree fails. */
  ghost predicate Releases(st: MountState, f: Faults) {
    Bound(st) !! f.stuck && (st == NO_MOUNTS || !f.closing)
  }

  /** The unmount loops: every bound target is unmounted, last first, whether or not another one failed. */
  method UnmountAll(ghost up: set<Place>, rs: seq<Record>, stuck: set<Place>) returns (ok: bool, ghost up': set<Place>)
    ensures up' == up - (BoundPlaces(rs) - stuck)
    ensures ok <==> BoundPlaces(rs) !! stuck
  {
    ok, up' := true, up;
    var i := |rs|;
    while i > 0
      invariant 0 <= i <= |rs|
      invariant up' == up - (BoundPlaces(rs[i..]) - stuck)
      invariant ok <==> BoundPlaces(rs[i..]) !! stuck
    {
      i := i - 1;
      assert rs[i..] == [rs[i]] + rs[i + 1..];
      if rs[i].bound {
        var place := On(rs[i].mount.target.path);
        assert BoundPlaces(rs[i..]) == {place} + BoundPlaces(rs[i + 1..]);
        if place in stuck {
          ok := false;
        } else {
          up' := up' - {place};
        }
      } else {
        assert BoundPlaces(rs[i..]) == BoundPlaces(rs[i + 1..]);
      }
    }
    assert rs[0..] == rs;
  }

  /** `cleanup_build_cache_mounts` and `cleanup_build_context_binds`: the state
      is cleared whatever happens, what it said was mounted is not any more
      unless it was stuck, and then the targets are cleaned up. Success means
      that nothing it said was mounted still is. */
  method CleanupState(ghost up: set<Place>, fs: Fs, st: MountState, f: Faults) returns (ok: bool, ghost up': set<Place>, fs': Fs, st': MountState)
    requires WellFormed(fs) && NamesFit(fs) && AllRecorded(ToClean(st.records, f.stuck))
    ensures st' == NO_MOUNTS && up' == up - (Bound(st) - f.stuck)
    ensures ok ==> Bound(st) !! f.stuck && up' !! Bound(st)
    ensures WellFormed(fs') && NamesFit(fs')
    ensures var ms := ToClean(st.records, f.stuck);
            Layered(ms) && AllKept(fs, ms) ==> fs' == Restored(fs, OursFrom(ms, 0)) && (ok <==> CleansWell(fs, ms) && Releases(st, f))
  {
    hide WellFormed, NamesFit, Layered, AllKept, AllRecorded, CleansWell, OursFrom, Restored, ToClean, BoundPlaces;
    ok, up' := UnmountAll(up, st.records, f.stuck);
    if st != NO_MOUNTS && f.closing {
      ok := false;
    }
    if st.disk {
      if CacheDisk in f.stuck {
        ok := false;
      } else {
        up' := up' - {CacheDisk};
      }
    }
    NoDiskThere(st.records);
    var cleaned;
    cleaned, fs' := CleanupMounts(fs, ToClean(st.records, f.stuck));
    ok, st' := ok && cleaned, NO_MOUNTS;
  }

  lemma NoDiskThere(rs: seq<Record>)
    ensures CacheDisk !in BoundPlaces(rs)
  {
  }

  // ---- Setting up ----

  /** The records of mounts that are up. */
  function RecordsOf(ms: seq<Mount>): seq<Record> {
    seq(|ms|, i requires 0 <= i < |ms| => Record(ms[i], true, true))
  }

  ghost function Places(ts: seq<Target>): set<Place> {
    set t | t in ts :: On(t.path)
  }

  ghost predicate AllOf(ts: seq<Target>, kind: Kind) {
    forall t :: t in ts ==> t.kind == kind
  }

  /** The mount of the `i`th target goes wrong. */
  predicate Hit(kind: Kind, f: Faults, i: nat) {
    i in f.sources || i in f.lost || i in f.mounts || (kind == Bind && i in f.remounts)
  }

  /** The `n`th target is the first that is not had and mounted. */
  ghost predicate Stops(fs: Fs, kind: Kind, ts: seq<Target>, f: Faults, n: nat) {
    && n < |ts| && (forall i :: 0 <= i < n ==> Preparable(fs, ts[i]) && !Hit(kind, f, i))
    && (Hit(kind, f, n) || !Preparable(fs, ts[n]))
  }

  /** What the setup starts with is there. */
  predicate Available(kind: Kind, f: Faults) {
    !f.disk && (kind == Cache ==> !f.root)
  }

  /** The setup, after that of the `earlier` targets, stops where something is left that no cleanup can account for. */
  ghost predicate Tainted(fs: Fs, earlier: seq<Target>, kind: Kind, ts: seq<Target>, f: Faults) {
    Available(kind, f) &&
    exists n: nat :: Stops(fs, kind, ts, f, n) && (n in f.lost || (n !in f.sources && Strands(fs, earlier + ts[..n], ts[n])))
  }

  /** All targets are had and mounted. */
  ghost predicate AllHad(fs: Fs, kind: Kind, ts: seq<Target>, f: Faults) {
    ts == [] || (Available(kind, f) && forall i :: 0 <= i < |ts| ==> Preparable(fs, ts[i]) && !Hit(kind, f, i))
  }

  /** Where a setup that must be undone stands: the records, the tree, and whether something cannot be accounted for. */
  ghost predicate Undoable(fs: Fs, ts: seq<Target>, ms: seq<Mount>, left: Fs, lost: bool) {
    && WellFormed(left) && NamesFit(left) && AllRecorded(ms) && Layered(ms) && AllKept(left, ms)
    && OnlyMore(fs, ts, Restored(left, OursFrom(ms, 0)))
    && (CleansWell(left, ms) && !lost ==> Restored(left, OursFrom(ms, 0)) == fs)
  }

  /** The `fail` part of both setups. */
  method UndoSetup(ghost up: set<Place>, fs: Fs, ghost ts: seq<Target>, st: MountState, f: Faults, lost: bool, left: Fs, ghost ms: seq<Mount>)
    returns (rc: Outcome, ghost up': set<Place>, fs': Fs, st': MountState)
    requires ToClean(st.records, {}) == ms && Undoable(fs, ts, ms, left, lost)
    ensures st' == NO_MOUNTS && up' == up - (Bound(st) - f.stuck) && !rc.Settled?
    ensures rc.Failed? ==> fs' == fs && up' == up - Bound(st)
    ensures Releases(st, f) ==> (rc.Uncertain? <==> lost || !CleansWell(left, ms)) && OnlyMore(fs, ts, fs')
    ensures WellFormed(fs') && NamesFit(fs')
  {
    hide WellFormed, NamesFit, Layered, AllKept, AllRecorded, CleansWell, OursFrom, Restored, ToClean, BoundPlaces, OnlyMore;
    FewerRecorded(st.records, f.stuck);
    if Bound(st) !! f.stuck {
      NothingStuck(st.records, f.stuck);
    }
    var ok;
    ok, up', fs', st' := CleanupState(up, left, st, f);
    rc := if ok && !lost then Failed else Uncertain;
  }

  lemma {:induction false} FewerRecorded(rs: seq<Record>, stuck: set<Place>)
    requires AllRecorded(ToClean(rs, {}))
    ensures AllRecorded(ToClean(rs, stuck))
    decreases |rs|
  {
    hide Recorded;
    if rs != [] {
      var init, last := rs[..|rs| - 1], rs[|rs| - 1];
      var before := ToClean(init, {});
      assert forall i :: 0 <= i < |before| ==> before[i] == ToClean(rs, {})[i];
      if last.cleanup {
        assert ToClean(rs, {})[|before|] == last.mount;
      }
      FewerRecorded(init, stuck);
    }
  }

  lemma {:induction false} NothingStuck(rs: seq<Record>, stuck: set<Place>)
    requires BoundPlaces(rs) !! stuck
    ensures ToClean(rs, stuck) == ToClean(rs, {})
    decreases |rs|
  {
    if rs != [] {
      var init, last := rs[..|rs| - 1], rs[|rs| - 1];
      assert last in rs && forall r :: r in init ==> r in rs;
      NothingStuck(init, stuck);
    }
  }

  lemma {:induction false} CleansRecorded(ms: seq<Mount>)
    ensures ToClean(RecordsOf(ms), {}) == ms
    decreases |ms|
  {
    if ms != [] {
      var init := ms[..|ms| - 1];
      CleansRecorded(init);
      assert RecordsOf(ms)[..|ms| - 1] == RecordsOf(init);
      assert ms == init + [ms[|ms| - 1]];
    }
  }

  /** What one more record adds. */
  lemma OneMoreRecord(ms: seq<Mount>, r: Record)
    ensures ToClean(RecordsOf(ms) + [r], {}) == if r.cleanup then ms + [r.mount] else ms
    ensures BoundPlaces(RecordsOf(ms) + [r]) == BoundPlaces(RecordsOf(ms)) + if r.bound then {On(r.mount.target.path)} else {}
    ensures RecordsOf(ms + [r.mount]) == RecordsOf(ms) + [Record(r.mount, true, true)]
  {
    var rs := RecordsOf(ms) + [r];
    assert rs[..|rs| - 1] == RecordsOf(ms);
    CleansRecorded(ms);
    assert forall x :: x in rs <==> x in RecordsOf(ms) || x == r;
  }

  lemma BoundAreTargets(fs: Fs, first: nat, ts: seq<Target>, ms: seq<Mount>, fs': Fs, next': nat)
    requires Built(fs, first, ts, ms, fs', next')
    ensures BoundPlaces(RecordsOf(ms)) == Places(ts)
  {
    hide OursFrom, Root, Layered, AllKept, AllRecorded, CleansWell, Grown;
    var rs := RecordsOf(ms);
    forall t | t in ts ensures On(t.path) in BoundPlaces(rs) {
      var i :| 0 <= i < |ts| && ts[i] == t;
      assert rs[i] in rs && rs[i].mount.target == t;
    }
    forall r | r in rs ensures On(r.mount.target.path) in Places(ts) {
      var i :| 0 <= i < |rs| && rs[i] == r;
      assert ts[i] in ts;
    }
  }

  lemma BuiltUndoable(fs: Fs, nextId: nat, ts: seq<Target>, i: nat, ms: seq<Mount>, before: Fs, next: nat, lost: bool)
    requires Root(fs, nextId) && i <= |ts| && Built(fs, nextId, ts[..i], ms, before, next)
    ensures Undoable(fs, ts, ms, before, lost) && CleansWell(before, ms)
  {
    hide Root, Built, Layered, AllKept, AllRecorded, CleansWell, OursFrom, WellFormed, NamesFit, Restored;
    BuiltIsRoot(fs, nextId, ts[..i], ms, before, next);
    BuiltCleans(fs, nextId, ts[..i], ms, before, next);
    UndoneIsBase(fs, nextId, ts[..i], ms, before, next);
  }

  /** A failed prepare leaves its own record, if that needs a cleanup. */
  lemma StrayUndoable(fs: Fs, nextId: nat, ts: seq<Target>, i: nat, ms: seq<Mount>, before: Fs, next: nat, r: Outcome, m: Mount, left: Fs)
    requires Root(fs, nextId) && i < |ts| && Built(fs, nextId, ts[..i], ms, before, next) && !r.Settled?
    requires m.target == ts[i] && ValidTarget(ts[i]) && Strayed(before, next, ts[i].path, left)
    requires ts[i].kind == Cache ==> m.identity.Unknown? && |m.created| <= |Stem(m.target)| && r.Failed? && (m.created == [] ==> left == before)
    requires ts[i].kind == Bind && r.Failed? ==> left == before
    ensures var stray := ts[i].kind == Cache && m.created != [];
            var toClean := if stray then ms + [m] else ms;
            Undoable(fs, ts, toClean, left, r.Uncertain?) && (r.Uncertain? || !CleansWell(left, toClean) <==> r.Uncertain? || stray)
  {
    hide WellFormed, NamesFit, Root, Built, OnlyMore, Strayed, ValidTarget, Layered, AllKept, AllRecorded, CleansWell, OursFrom, Restored;
    AllStillKept(fs, nextId, ts, i, ms, before, next, left);
    if m.target.kind == Cache && m.created != [] {
      StrayRecorded(left, ms, m);
    }
    UndoneIsBase(fs, nextId, ts[..i], ms, before, next);
    SomeMore(fs, nextId, ts, i, ms, before, next, left, Restored(left, OursFrom(ms, 0)));
  }

  /** How far a setup is: the first `i` targets are had and mounted. */
  ghost predicate Mounting(up: set<Place>, fs: Fs, nextId: nat, kind: Kind, ts: seq<Target>, f: Faults, i: nat, ms: seq<Mount>, up': set<Place>, fs': Fs, nextId': nat) {
    && i <= |ts| && Built(fs, nextId, ts[..i], ms, fs', nextId')
    && (forall j :: 0 <= j < i ==> Preparable(fs, ts[j]) && !Hit(kind, f, j))
    && up' == up + Places(ts[..i]) + if kind == Cache then {CacheDisk} else {}
  }

  /** Nothing a setup mounts is mounted yet. */
  ghost predicate Free(up: set<Place>, kind: Kind, ts: seq<Target>) {
    up !! Places(ts) && (kind == Cache ==> CacheDisk !in up)
  }

  /** `setup_build_cache_mounts` and `setup_build_context_binds`: prepare and
      mount each target, and undo everything when something goes wrong.
      `Uncertain` is the outcome that poisons the agent. */
  method SetupMounts(ghost up: set<Place>, fs: Fs, nextId: nat, kind: Kind, ts: seq<Target>, f: Faults)
    returns (rc: Outcome, ghost up': set<Place>, fs': Fs, nextId': nat, st: MountState, ghost ms: seq<Mount>)
    requires Root(fs, nextId) && AllValid(ts) && Antichain(ts) && AllOf(ts, kind) && Free(up, kind, ts)
    ensures rc.Settled? <==> AllHad(fs, kind, ts, f)
    ensures rc.Settled? ==> Built(fs, nextId, ts, ms, fs', nextId') && st == MountState(kind == Cache && ts != [], RecordsOf(ms))
    ensures rc.Settled? ==> up' == up + Bound(st) && BoundPlaces(st.records) == Places(ts)
    ensures !rc.Settled? ==> st == NO_MOUNTS
    ensures rc.Failed? ==> fs' == fs && up' == up
    ensures f.stuck == {} && !f.closing ==> (rc.Uncertain? <==> ts != [] && Tainted(fs, [], kind, ts, f)) && up' == up + Bound(st) && OnlyMore(fs, ts, fs')
    ensures WellFormed(fs') && NamesFit(fs')
  {
    hide WellFormed, NamesFit, Root, Built, Provided, Preparable, Strands, Antichain, OnlyMore, ValidTarget, Tainted, Mounting, Undoable, CleansWell, ToClean, BoundPlaces, Places, RecordsOf, Hit, AllValid;
    up', fs', nextId', st, ms := up, fs, nextId, NO_MOUNTS, [];
    NothingBuilt(fs, nextId);
    SetupStarts(up, fs, nextId, kind, ts, f);
    if ts == [] {
      return Settled, up', fs', nextId', st, ms;
    }
    if f.disk {
      NotTainted(fs, kind, ts, f);
      return Failed, up', fs', nextId', st, ms;
    }
    if kind == Cache {
      st, up' := MountState(true, []), up' + {CacheDisk};
      if f.root {
        NotTainted(fs, kind, ts, f);
        BuiltUndoable(fs, nextId, ts, 0, [], fs, nextId, false);
        rc, up', fs', st := UndoSetup(up', fs, ts, st, f, false, fs, []);
        DiskIsFree(up, ts);
        return;
      }
    }
    var i := 0;
    while i < |ts|
      invariant 0 <= i <= |ts| && st == MountState(kind == Cache, RecordsOf(ms))
      invariant Mounting(up, fs, nextId, kind, ts, f, i, ms, up', fs', nextId')
    {
      var next;
      ghost var more;
      rc, up', fs', nextId', next, more := SetupNext(up, fs, nextId, kind, ts, f, i, up', fs', nextId', st, ms);
      st, ms := next, more;
      if !rc.Settled? {
        StoppedSays(up, fs, kind, ts, f, rc, up', fs', st);
        return;
      }
      i := i + 1;
    }
    SetupEnds(up, fs, nextId, kind, ts, f, ms, up', fs', nextId');
    rc := Settled;
  }

  /** One target: its source, its prepare, its mount, and for a bind its remount. */
  method SetupNext(ghost up: set<Place>, fs: Fs, ghost nextId: nat, kind: Kind, ts: seq<Target>, f: Faults, i: nat,
                   ghost up1: set<Place>, fs1: Fs, nextId1: nat, st1: MountState, ghost ms1: seq<Mount>)
    returns (rc: Outcome, ghost up': set<Place>, fs': Fs, nextId': nat, st: MountState, ghost ms: seq<Mount>)
    requires Root(fs, nextId) && AllValid(ts) && Antichain(ts) && AllOf(ts, kind) && Free(up, kind, ts) && Available(kind, f)
    requires i < |ts| && st1 == MountState(kind == Cache, RecordsOf(ms1)) && Mounting(up, fs, nextId, kind, ts, f, i, ms1, up1, fs1, nextId1)
    ensures rc.Settled? ==> st == MountState(kind == Cache, RecordsOf(ms)) && Mounting(up, fs, nextId, kind, ts, f, i + 1, ms, up', fs', nextId')
    ensures !rc.Settled? ==> Stopped(up, fs, kind, ts, f, rc, up', fs', st)
  {
    hide WellFormed, NamesFit, Root, Built, Provided, Preparable, Strands, Antichain, OnlyMore, ValidTarget, Tainted, Undoable, CleansWell, ToClean, BoundPlaces, Places, RecordsOf, Hit, AllValid, Stops, Stopped, Free;
    BuiltIsRoot(fs, nextId, ts[..i], ms1, fs1, nextId1);
    BoundAreTargets(fs, nextId, ts[..i], ms1, fs1, nextId1);
    AntichainSoFar(ts, i);
    PreparableInTurn(fs, nextId, ts[..i], ms1, fs1, nextId1, ts[i]);
    StrandsInTurn(fs, nextId, ts[..i], ms1, fs1, nextId1, [], ts[i]);
    ValidAt(ts, kind, i);
    assert ts[..i] + [] == ts[..i];
    st, ms, nextId' := st1, ms1, nextId1;
    if i in f.sources || i in f.lost {
      var record := Record(Mount(ts[i], [], false, Unknown), false, false);
      OneMoreRecord(ms1, record);
      BuiltUndoable(fs, nextId, ts, i, ms1, fs1, nextId1, i in f.lost);
      HitStops(fs, kind, ts, f, i);
      rc, up', fs', st := Stop(up, fs, kind, ts, f, i, i, up1, MountState(st1.disk, st1.records + [record]), i in f.lost, fs1, ms1);
      return;
    }
    var r, m;
    if ts[i].kind == Cache {
      r, fs', nextId', m := PrepareCache(fs1, nextId1, ts[i].path);
    } else {
      r, fs', nextId', m := PrepareBind(fs1, nextId1, ts[i].path);
    }
    if !r.Settled? {
      if r.Failed? && ts[i].kind == Bind {
        NothingStrayed(fs1, nextId1, ts[i].path);
      } else {
        LeftOverStrayed(fs1, nextId1, m, fs');
      }
      StrayUndoable(fs, nextId, ts, i, ms1, fs1, nextId1, r, m, fs');
      var record := Record(m, false, kind == Cache && m.created != []);
      OneMoreRecord(ms1, record);
      HitStops(fs, kind, ts, f, i);
      rc, up', fs', st := Stop(up, fs, kind, ts, f, i, i, up1, MountState(st1.disk, st1.records + [record]), r.Uncertain?, fs', if record.cleanup then ms1 + [m] else ms1);
      return;
    }
    HadIsNotStranded(fs, ts, i);
    OneBuilt(fs1, nextId1, m, fs', nextId');
    BuiltTwice(fs, nextId, ts[..i], ms1, fs1, nextId1, [ts[i]], [m], fs', nextId');
    BuiltUndoable(fs, nextId, ts, i + 1, ms1 + [m], fs', nextId', false);
    HitStops(fs, kind, ts, f, i);
    if i in f.mounts {
      var record := Record(m, false, true);
      OneMoreRecord(ms1, record);
      rc, up', fs', st := Stop(up, fs, kind, ts, f, i, i, up1, MountState(st1.disk, st1.records + [record]), false, fs', ms1 + [m]);
      return;
    }
    OneMoreRecord(ms1, Record(m, true, true));
    OneMorePlace(ts, i);
    st, ms, up' := MountState(st1.disk, st1.records + [Record(m, true, true)]), ms1 + [m], up1 + {On(ts[i].path)};
    if kind == Bind && i in f.remounts {
      CleansRecorded(ms);
      rc, up', fs', st := Stop(up, fs, kind, ts, f, i, i + 1, up', st, false, fs', ms);
      return;
    }
    rc := Settled;
  }

  /** What a setup that stopped leaves. */
  ghost predicate Stopped(up: set<Place>, fs: Fs, kind: Kind, ts: seq<Target>, f: Faults, rc: Outcome, up': set<Place>, fs': Fs, st: MountState) {
    && !rc.Settled? && st == NO_MOUNTS && WellFormed(fs') && NamesFit(fs')
    && (exists n: nat :: Stops(fs, kind, ts, f, n))
    && (rc.Failed? ==> fs' == fs && up' == up)
    && (f.stuck == {} && !f.closing ==> (rc.Uncertain? <==> Tainted(fs, [], kind, ts, f)) && up' == up && OnlyMore(fs, ts, fs'))
  }

  lemma StoppedSays(up: set<Place>, fs: Fs, kind: Kind, ts: seq<Target>, f: Faults, rc: Outcome, up': set<Place>, fs': Fs, st: MountState)
    requires Stopped(up, fs, kind, ts, f, rc, up', fs', st)
    ensures st == NO_MOUNTS && WellFormed(fs') && NamesFit(fs') && (rc.Failed? ==> fs' == fs && up' == up)
    ensures !forall i :: 0 <= i < |ts| ==> Preparable(fs, ts[i]) && !Hit(kind, f, i)
    ensures f.stuck == {} && !f.closing ==> (rc.Uncertain? <==> Tainted(fs, [], kind, ts, f)) && up' == up && OnlyMore(fs, ts, fs')
  {
    hide WellFormed, NamesFit, Preparable, Hit, Tainted, OnlyMore;
  }

  /** Undoing a setup that stopped at the `i`th target with `k` targets mounted. */
  method Stop(ghost up: set<Place>, fs: Fs, ghost kind: Kind, ghost ts: seq<Target>, f: Faults, ghost i: nat, ghost k: nat,
              ghost up1: set<Place>, st: MountState, lost: bool, left: Fs, ghost ms: seq<Mount>)
    returns (rc: Outcome, ghost up': set<Place>, fs': Fs, st': MountState)
    requires Available(kind, f) && Stops(fs, kind, ts, f, i) && Free(up, kind, ts) && k <= |ts|
    requires Undoable(fs, ts, ms, left, lost) && ToClean(st.records, {}) == ms
    requires st.disk == (kind == Cache) && BoundPlaces(st.records) == Places(ts[..k])
    requires up1 == up + Places(ts[..k]) + if kind == Cache then {CacheDisk} else {}
    requires lost || !CleansWell(left, ms) <==> i in f.lost || (i !in f.sources && Strands(fs, ts[..i], ts[i]))
    ensures !rc.Settled? && Stopped(up, fs, kind, ts, f, rc, up', fs', st')
  {
    hide WellFormed, NamesFit, Preparable, Strands, OnlyMore, Undoable, CleansWell, ToClean, BoundPlaces, Hit, Stops, Tainted;
    rc, up', fs', st' := UndoSetup(up1, fs, ts, st, f, lost, left, ms);
    SomePlaces(ts, k);
    assert up1 == up + Bound(st);
    assert up !! Bound(st);
    TaintedHere(fs, kind, ts, f, i);
  }

  lemma SomePlaces(ts: seq<Target>, k: nat)
    requires k <= |ts|
    ensures Places(ts[..k]) <= Places(ts) && CacheDisk !in Places(ts[..k])
  {
    assert forall t :: t in ts[..k] ==> t in ts;
  }

  lemma OneMorePlace(ts: seq<Target>, i: nat)
    requires i < |ts|
    ensures Places(ts[..i + 1]) == Places(ts[..i]) + {On(ts[i].path)}
  {
    assert ts[..i + 1] == ts[..i] + [ts[i]];
    assert forall t :: t in ts[..i + 1] <==> t in ts[..i] || t == ts[i];
  }

  lemma ValidAt(ts: seq<Target>, kind: Kind, i: nat)
    requires i < |ts| && AllValid(ts) && AllOf(ts, kind)
    ensures ValidTarget(ts[i]) && ts[i].kind == kind && ts[i] == Target(kind, ts[i].path)
  {
    assert ts[i] in ts;
  }

  lemma HitStops(fs: Fs, kind: Kind, ts: seq<Target>, f: Faults, i: nat)
    requires i < |ts| && forall j :: 0 <= j < i ==> Preparable(fs, ts[j]) && !Hit(kind, f, j)
    ensures Hit(kind, f, i) || !Preparable(fs, ts[i]) ==> Stops(fs, kind, ts, f, i)
    ensures Hit(kind, f, i) <==> i in f.sources || i in f.lost || i in f.mounts || (kind == Bind && i in f.remounts)
  {
    hide Preparable;
  }

  lemma HadIsNotStranded(fs: Fs, ts: seq<Target>, i: nat)
    requires i < |ts| && Preparable(fs, ts[i])
    ensures !Strands(fs, ts[..i], ts[i])
  {
    hide Preparable, Strands;
    if Strands(fs, ts[..i], ts[i]) {
      StrandedNotPreparable(fs, ts[..i], ts[i]);
    }
  }

  lemma TaintedHere(fs: Fs, kind: Kind, ts: seq<Target>, f: Faults, i: nat)
    requires Available(kind, f) && Stops(fs, kind, ts, f, i)
    ensures Tainted(fs, [], kind, ts, f) <==> i in f.lost || (i !in f.sources && Strands(fs, ts[..i], ts[i]))
  {
    hide Preparable, Strands, Hit;
    assert [] + ts[..i] == ts[..i];
    forall n: nat ensures Stops(fs, kind, ts, f, n) ==> n == i {
    }
  }

  lemma NotTainted(fs: Fs, kind: Kind, ts: seq<Target>, f: Faults)
    requires !Available(kind, f)
    ensures !Tainted(fs, [], kind, ts, f) && OnlyMore(fs, ts, fs)
  {
  }

  lemma DiskIsFree(up: set<Place>, ts: seq<Target>)
    requires Free(up, Cache, ts)
    ensures up + {CacheDisk} - {CacheDisk} == up && BoundPlaces([]) == {} && ToClean([], {}) == []
  {
  }

  lemma SetupStarts(up: set<Place>, fs: Fs, nextId: nat, kind: Kind, ts: seq<Target>, f: Faults)
    requires Root(fs, nextId)
    ensures Mounting(up, fs, nextId, kind, ts, f, 0, [], up + if kind == Cache then {CacheDisk} else {}, fs, nextId)
    ensures RecordsOf([]) == [] && BoundPlaces([]) == {} && ToClean([], {}) == [] && Places([]) == {} && OnlyMore(fs, ts, fs)
    ensures WellFormed(fs) && NamesFit(fs)
  {
    NothingBuilt(fs, nextId);
    assert ts[..0] == [];
  }

  lemma SetupEnds(up: set<Place>, fs: Fs, nextId: nat, kind: Kind, ts: seq<Target>, f: Faults, ms: seq<Mount>, up': set<Place>, fs': Fs, nextId': nat)
    requires Mounting(up, fs, nextId, kind, ts, f, |ts|, ms, up', fs', nextId')
    ensures Built(fs, nextId, ts, ms, fs', nextId') && WellFormed(fs') && NamesFit(fs') && OnlyMore(fs, ts, fs')
    ensures BoundPlaces(RecordsOf(ms)) == Places(ts) && up' == up + Places(ts) + if kind == Cache then {CacheDisk} else {}
    ensures !Tainted(fs, [], kind, ts, f) && forall i :: 0 <= i < |ts| ==> Preparable(fs, ts[i]) && !Hit(kind, f, i)
  {
    hide WellFormed, NamesFit, Built, Preparable, Strands, Hit, BoundPlaces, Places;
    assert ts[..|ts|] == ts;
    BuiltIsRoot(fs, nextId, ts, ms, fs', nextId');
    BuiltIsMore(fs, nextId, ts, ms, fs', nextId');
    BoundAreTargets(fs, nextId, ts, ms, fs', nextId');
  }

  lemma NothingStrayed(fs: Fs, next: nat, p: Path)
    requires Root(fs, next)
    ensures Strayed(fs, next, p, fs)
  {
  }

  lemma LeftOverStrayed(fs: Fs, next: nat, m: Mount, fs': Fs)
    requires LeftOver(fs, next, m, fs')
    ensures Strayed(fs, next, m.target.path, fs') && m.identity.Unknown? && (m.created == [] ==> fs' == fs) && |m.created| <= |Stem(m.target)|
  {
  }

  lemma AllStillKept(fs: Fs, nextId: nat, ts: seq<Target>, i: nat, ms: seq<Mount>, before: Fs, next: nat, left: Fs)
    requires i < |ts| && Built(fs, nextId, ts[..i], ms, before, next) && Strayed(before, next, ts[i].path, left)
    ensures AllKept(left, ms) && Layered(ms) && AllRecorded(ms) && WellFormed(left) && NamesFit(left)
    ensures left == before ==> CleansWell(left, ms)
  {
    hide OursFrom, Layered, AllRecorded, Kept, Grown, CleansWell;
    forall j | 0 <= j < |ms| ensures Kept(left, ms[j]) {
      assert Kept(before, ms[j]);
      KeptStrays(before, next, ts[i].path, left, ms[j]);
    }
  }

  lemma KeptStrays(fs: Fs, next: nat, p: Path, fs': Fs, m: Mount)
    requires Root(fs, next) && Strayed(fs, next, p, fs') && Kept(fs, m)
    ensures Kept(fs', m)
  {
    hide ChainIntact;
    StemStays(fs, fs', Stem(m.target), m.created);
  }

  /** A record without a target counts for nothing. */
  lemma StrayRecorded(fs: Fs, ms: seq<Mount>, m: Mount)
    requires AllKept(fs, ms) && Layered(ms) && AllRecorded(ms) && Recorded(m) && m.identity.Unknown?
    ensures AllKept(fs, ms + [m]) && Layered(ms + [m]) && AllRecorded(ms + [m]) && OursFrom(ms + [m], 0) == OursFrom(ms, 0)
    ensures !CleansWell(fs, ms + [m]) && (ms + [m])[|ms|] == m
  {
    hide Kept, Created, Recorded, Layered, OursFrom, Unfilled;
    StrayLayered(ms, m);
    var all := ms + [m];
    forall j | 0 <= j < |all| ensures Recorded(all[j]) && (all[j].identity.Unknown? || Kept(fs, all[j])) {
      assert if j < |ms| then all[j] == ms[j] else all[j] == m;
    }
    OursOfBoth(ms, [m]);
    assert OursFrom([m], 0) == {};
    assert !(all[|ms|].identity.Inode?);
  }

  lemma StrayLayered(ms: seq<Mount>, m: Mount)
    requires Layered(ms) && m.identity.Unknown?
    ensures Layered(ms + [m])
  {
    hide Created;
    var all := ms + [m];
    forall i, j, q | 0 <= i < j < |all| && q in Ours(all[j]) ensures !(q <= all[i].target.path) && !(all[i].target.path < q) {
      assert all[j] == ms[j] && all[i] == ms[i];
    }
  }

  lemma SomeMore(fs: Fs, nextId: nat, ts: seq<Target>, i: nat, ms: seq<Mount>, before: Fs, next: nat, left: Fs, fs': Fs)
    requires i < |ts| && Built(fs, nextId, ts[..i], ms, before, next) && Strayed(before, next, ts[i].path, left)
    requires fs' == Restored(left, OursFrom(ms, 0))
    ensures OnlyMore(fs, ts, fs')
  {
    hide Built, OursFrom, WellFormed, NamesFit, Reaches, Restored;
    BuiltIsMore(fs, nextId, ts[..i], ms, before, next);
    RestoredIsPart(left, OursFrom(ms, 0));
    forall q | q in fs' && q !in fs ensures Reaches(ts, q) {
      ReachesMore(ts, i, q);
    }
  }

  lemma BuiltIsMore(fs: Fs, first: nat, ts: seq<Target>, ms: seq<Mount>, fs': Fs, next': nat)
    requires Built(fs, first, ts, ms, fs', next')
    ensures forall q :: q in fs ==> q in fs' && fs'[q] == fs[q] && q !in OursFrom(ms, 0)
    ensures forall q :: q in fs' && q !in fs ==> Reaches(ts, q)
  {
    hide OursFrom, Reaches, Root, Layered, AllKept, AllRecorded, CleansWell;
  }

  lemma RestoredIsPart(fs: Fs, c: set<Path>)
    ensures forall q :: q in Restored(fs, c) ==> q in fs && Restored(fs, c)[q] == fs[q]
    ensures forall q :: q in fs && q !in c ==> q in Restored(fs, c)
  {
  }

  lemma ReachesMore(ts: seq<Target>, i: nat, q: Path)
    requires i < |ts|
    ensures Reaches(ts[..i], q) || q <= ts[i].path ==> Reaches(ts, q)
  {
    assert ts == ts[..i] + ts[i..];
    ReachesBoth(ts[..i], ts[i..], q);
    if q <= ts[i].path {
      ReachesIt(ts, ts[i], q);
    }
  }

  lemma ReachesIt(ts: seq<Target>, t: Target, q: Path)
    requires t in ts && q <= t.path
    ensures Reaches(ts, q)
  {
  }

  /** The tree `fs` with some more on the way to `ts`. */
  ghost predicate OnlyMore(fs: Fs, ts: seq<Target>, fs': Fs) {
    && (forall q :: q in fs ==> q in fs' && fs'[q] == fs[q])
    && (forall q :: q in fs' && q !in fs ==> Reaches(ts, q))
  }

  lemma BuiltIsRoot(fs: Fs, first: nat, ts: seq<Target>, ms: seq<Mount>, fs': Fs, next': nat)
    requires Built(fs, first, ts, ms, fs', next')
    ensures Root(fs', next') && WellFormed(fs') && NamesFit(fs')
  {
  }

  lemma BuiltCleans(fs: Fs, first: nat, ts: seq<Target>, ms: seq<Mount>, fs': Fs, next': nat)
    requires Built(fs, first, ts, ms, fs', next')
    ensures AllRecorded(ms) && Layered(ms) && AllKept(fs', ms) && CleansWell(fs', ms)
  {
  }

  lemma AntichainSoFar(ts: seq<Target>, i: nat)
    requires Antichain(ts) && i < |ts|
    ensures ts[..i + 1] == ts[..i] + [ts[i]] && Antichain(ts[..i + 1])
  {
  }

  // ---- A whole RUN step ----

  lemma PartsAreApart(ts1: seq<Target>, ts2: seq<Target>)
    requires Antichain(ts1 + ts2) && AllValid(ts1 + ts2)
    ensures Antichain(ts1) && Antichain(ts2) && AllValid(ts1) && AllValid(ts2)
    ensures forall i :: 0 <= i < |ts2| ==> Antichain(ts1 + [ts2[i]])
  {
    hide ValidTarget;
    var ts := ts1 + ts2;
    assert forall i :: 0 <= i < |ts1| ==> ts[i] == ts1[i];
    assert forall i :: 0 <= i < |ts2| ==> ts[|ts1| + i] == ts2[i];
  }

  /** What decides the fate of the binds can be read off the tree before the caches. */
  lemma BindsInTurn(fs: Fs, first: nat, ts1: seq<Target>, ms: seq<Mount>, fs': Fs, next': nat, ts2: seq<Target>, f: Faults)
    requires Built(fs, first, ts1, ms, fs', next') && Antichain(ts1 + ts2) && AllValid(ts1 + ts2)
    ensures AllHad(fs', Bind, ts2, f) <==> AllHad(fs, Bind, ts2, f)
    ensures Tainted(fs', [], Bind, ts2, f) <==> Tainted(fs, ts1, Bind, ts2, f)
  {
    hide Built, Antichain, AllValid, Preparable, Strands, Hit;
    PartsAreApart(ts1, ts2);
    forall i | 0 <= i < |ts2|
      ensures Preparable(fs', ts2[i]) <==> Preparable(fs, ts2[i])
      ensures Strands(fs', [] + ts2[..i], ts2[i]) <==> Strands(fs, ts1 + ts2[..i], ts2[i])
    {
      PreparableInTurn(fs, first, ts1, ms, fs', next', ts2[i]);
      StrandsInTurn(fs, first, ts1, ms, fs', next', ts2[..i], ts2[i]);
      assert [] + ts2[..i] == ts2[..i];
    }
    assert forall n: nat :: Stops(fs', Bind, ts2, f, n) <==> Stops(fs, Bind, ts2, f, n);
  }

  ghost predicate Gentle(f: Faults) {
    f.stuck == {} && !f.closing
  }

  /** The mount setup of a RUN request: the caches, then the binds, and the
      caches undone when the binds fail. It succeeds exactly when every target
      can be had and mounted; otherwise nothing is mounted and the rootfs is as
      it was, or the agent is poisoned. Where unmounting and closing work, that
      happens in one case only. */
  method SetupRun(ghost up: set<Place>, fs: Fs, nextId: nat, caches: seq<Target>, binds: seq<Target>, fc: Faults, fb: Faults)
    returns (rc: Outcome, ghost up': set<Place>, fs': Fs, nextId': nat, cst: MountState, bst: MountState, ghost cms: seq<Mount>, ghost bms: seq<Mount>)
    requires Root(fs, nextId) && AllValid(caches + binds) && Antichain(caches + binds)
    requires AllOf(caches, Cache) && AllOf(binds, Bind) && Free(up, Cache, caches + binds)
    ensures rc.Settled? <==> AllHad(fs, Cache, caches, fc) && AllHad(fs, Bind, binds, fb)
    ensures rc.Settled? ==>
              && Built(fs, nextId, caches + binds, cms + bms, fs', nextId') && cst == MountState(caches != [], RecordsOf(cms)) && bst == MountState(false, RecordsOf(bms))
              && up' == up + Bound(cst) + Bound(bst) && Bound(cst) + Bound(bst) == Places(caches + binds) + if caches != [] then {CacheDisk} else {}
    ensures !rc.Settled? ==> cst == NO_MOUNTS && bst == NO_MOUNTS
    ensures rc.Failed? ==> fs' == fs && up' == up
    ensures Gentle(fc) && Gentle(fb) ==>
              && up' == up + Bound(cst) + Bound(bst)
              && (rc.Uncertain? <==> (caches != [] && Tainted(fs, [], Cache, caches, fc)) ||
                                     (AllHad(fs, Cache, caches, fc) && binds != [] && Tainted(fs, caches, Bind, binds, fb)))
    ensures WellFormed(fs') && NamesFit(fs')
  {
    hide Root, Built, Preparable, Strands, Antichain, AllValid, OnlyMore, Layered, AllKept, AllRecorded, CleansWell, Tainted, WellFormed, NamesFit, AllHad, Places, BoundPlaces, RecordsOf, AllOf, ToClean;
    PartsAreApart(caches, binds);
    PlacesOfBoth(up, caches, binds);
    NothingRecorded();
    bst, bms := NO_MOUNTS, [];
    rc, up', fs', nextId', cst, cms := SetupMounts(up, fs, nextId, Cache, caches, fc);
    if !rc.Settled? {
      if caches == [] {
        NothingIsHad(fs, Cache, fc);
      }
      HadIsNotTainted(fs, [], Cache, caches, fc);
      return;
    }
    HadIsNotTainted(fs, [], Cache, caches, fc);
    ghost var before, next := fs', nextId';
    BuiltIsRoot(fs, nextId, caches, cms, before, next);
    BuiltCleans(fs, nextId, caches, cms, before, next);
    BindsInTurn(fs, nextId, caches, cms, before, next, binds, fb);
    PlacesAreApart(up, caches, binds);
    rc, up', fs', nextId', bst, bms := SetupMounts(up', fs', nextId', Bind, binds, fb);
    if rc.Settled? {
      HadIsNotTainted(fs, caches, Bind, binds, fb);
      BuiltTwice(fs, nextId, caches, cms, before, next, binds, bms, fs', nextId');
      return;
    }
    if binds == [] {
      NothingIsHad(fs, Bind, fb);
    }
    UndoneIsBase(fs, nextId, caches, cms, before, next);
    var ok;
    ok, up', fs', cst := UndoCaches(up', fs', cst, fc, cms);
    if !ok {
      rc := Uncertain;
    }
  }

  /** The cleanup of caches that are all mounted. */
  method UndoCaches(ghost up: set<Place>, fs: Fs, st: MountState, f: Faults, ghost ms: seq<Mount>)
    returns (ok: bool, ghost up': set<Place>, fs': Fs, st': MountState)
    requires WellFormed(fs) && NamesFit(fs) && AllRecorded(ms) && st.records == RecordsOf(ms)
    ensures st' == NO_MOUNTS && WellFormed(fs') && NamesFit(fs') && (ok || Gentle(f) ==> up' == up - Bound(st))
    ensures Layered(ms) && AllKept(fs, ms) && CleansWell(fs, ms) ==>
              (ok ==> fs' == Restored(fs, OursFrom(ms, 0))) && (Gentle(f) ==> ok)
  {
    hide Layered, AllKept, AllRecorded, CleansWell, WellFormed, NamesFit, RecordsOf, ToClean, Restored, OursFrom, BoundPlaces;
    CleansRecorded(ms);
    FewerRecorded(st.records, f.stuck);
    if Bound(st) !! f.stuck {
      NothingStuck(st.records, f.stuck);
    }
    ok, up', fs', st' := CleanupState(up, fs, st, f);
  }

  lemma PlacesOfBoth(up: set<Place>, ts1: seq<Target>, ts2: seq<Target>)
    requires Free(up, Cache, ts1 + ts2)
    ensures Places(ts1 + ts2) == Places(ts1) + Places(ts2) && Free(up, Cache, ts1) && CacheDisk !in up
  {
    assert forall t :: t in ts1 + ts2 <==> t in ts1 || t in ts2;
  }

  lemma PlacesAreApart(up: set<Place>, ts1: seq<Target>, ts2: seq<Target>)
    requires Free(up, Cache, ts1 + ts2) && Antichain(ts1 + ts2)
    ensures forall disk: set<Place> :: disk <= {CacheDisk} ==> Free(up + (Places(ts1) + disk), Bind, ts2)
  {
    var ts := ts1 + ts2;
    forall t1, t2 | t1 in ts1 && t2 in ts2 ensures t1.path != t2.path {
      var i :| 0 <= i < |ts1| && ts1[i] == t1;
      var j :| 0 <= j < |ts2| && ts2[j] == t2;
      assert ts[i] == t1 && ts[|ts1| + j] == t2;
    }
    assert forall t :: t in ts2 ==> t in ts;
  }

  lemma NothingRecorded()
    ensures RecordsOf([]) == [] && BoundPlaces([]) == {} && Places([]) == {}
  {
  }

  lemma NothingIsHad(fs: Fs, kind: Kind, f: Faults)
    ensures AllHad(fs, kind, [], f)
  {
  }

  lemma HadIsNotTainted(fs: Fs, earlier: seq<Target>, kind: Kind, ts: seq<Target>, f: Faults)
    ensures AllHad(fs, kind, ts, f) && ts != [] ==> !Tainted(fs, earlier, kind, ts, f)
  {
    hide Preparable, Strands, Hit;
  }

  /** `cleanup_build_run_mounts`: whatever the RUN step did, both states are
      cleared, and success means that nothing they said was mounted still is. As
      long as the step left what was made for the mounts as it was, the cleanup
      takes away just what was made and holds nothing else. */
  method CleanupRun(ghost up: set<Place>, fs: Fs, cst: MountState, bst: MountState, fc: Faults, fb: Faults)
    returns (ok: bool, ghost up': set<Place>, fs': Fs, cst': MountState, bst': MountState)
    requires WellFormed(fs) && NamesFit(fs) && AllRecorded(ToClean(cst.records, fc.stuck)) && AllRecorded(ToClean(bst.records, fb.stuck))
    ensures cst' == NO_MOUNTS && bst' == NO_MOUNTS && up' == up - (Bound(bst) - fb.stuck) - (Bound(cst) - fc.stuck)
    ensures ok ==> up' !! Bound(cst) + Bound(bst)
    ensures var ms := ToClean(cst.records, fc.stuck) + ToClean(bst.records, fb.stuck);
            Layered(ms) && AllKept(fs, ms) ==>
              fs' == Restored(fs, OursFrom(ms, 0)) && (ok <==> CleansWell(fs, ms) && Releases(cst, fc) && Releases(bst, fb))
    ensures WellFormed(fs') && NamesFit(fs')
  {
    hide WellFormed, NamesFit, Layered, AllKept, AllRecorded, CleansWell, OursFrom, Restored, ToClean, Bound, Releases;
    ghost var cms, bms := ToClean(cst.records, fc.stuck), ToClean(bst.records, fb.stuck);
    var bindsOk, cachesOk;
    bindsOk, up', fs', bst' := CleanupState(up, fs, bst, fb);
    ghost var between := fs';
    cachesOk, up', fs', cst' := CleanupState(up', fs', cst, fc);
    ok := bindsOk && cachesOk;
    if Layered(cms + bms) && AllKept(fs, cms + bms) {
      SplitLayers(fs, cms, bms);
      CachesUntouched(fs, cms, bms, between);
      BothRestored(fs, cms, bms);
    }
  }

  lemma SplitLayers(fs: Fs, ms1: seq<Mount>, ms2: seq<Mount>)
    requires Layered(ms1 + ms2) && AllKept(fs, ms1 + ms2)
    ensures Layered(ms1) && AllKept(fs, ms1) && Layered(ms2) && AllKept(fs, ms2)
  {
    hide Ours, Kept;
    var ms := ms1 + ms2;
    assert forall i :: 0 <= i < |ms1| ==> ms[i] == ms1[i];
    assert forall i :: 0 <= i < |ms2| ==> ms[|ms1| + i] == ms2[i];
  }

  lemma OursOfTail(ms1: seq<Mount>, ms2: seq<Mount>)
    ensures OursFrom(ms1 + ms2, |ms1|) == OursFrom(ms2, 0)
  {
    hide Ours;
    var ms := ms1 + ms2;
    forall q | q in OursFrom(ms, |ms1|) ensures q in OursFrom(ms2, 0) {
      var j :| |ms1| <= j < |ms| && q in Ours(ms[j]);
      assert ms[j] == ms2[j - |ms1|];
    }
    forall q | q in OursFrom(ms2, 0) ensures q in OursFrom(ms, |ms1|) {
      var j :| 0 <= j < |ms2| && q in Ours(ms2[j]);
      assert ms[|ms1| + j] == ms2[j];
    }
  }

  lemma CachesUntouched(fs: Fs, ms1: seq<Mount>, ms2: seq<Mount>, between: Fs)
    requires Layered(ms1 + ms2) && AllKept(fs, ms1 + ms2) && AllRecorded(ms1) && AllRecorded(ms2) && between == Restored(fs, OursFrom(ms2, 0))
    ensures AllKept(between, ms1) && (CleansWell(between, ms1) && CleansWell(fs, ms2) <==> CleansWell(fs, ms1 + ms2))
  {
    hide Kept, Unfilled, Layered, Restored, OursFrom;
    var ms := ms1 + ms2;
    OursOfTail(ms1, ms2);
    var ok := forall j :: |ms1| <= j < |ms| ==> ms[j].identity.Inode? && Unfilled(fs, ms[j]);
    assert Cleaning(fs, ms, |ms1|, between, ok);
    assert AllRecorded(ms);
    forall i | 0 <= i < |ms1| && ms1[i].identity.Inode? ensures Kept(between, ms1[i]) && (Unfilled(between, ms1[i]) <==> Unfilled(fs, ms1[i])) {
      assert ms[i] == ms1[i];
      EarlierUntouched(fs, ms, i, |ms1|, between, ok);
    }
    assert forall i :: 0 <= i < |ms2| ==> ms[|ms1| + i] == ms2[i];
    assert forall i :: 0 <= i < |ms1| ==> ms[i] == ms1[i];
  }

  lemma BothRestored(fs: Fs, ms1: seq<Mount>, ms2: seq<Mount>)
    requires Layered(ms1 + ms2) && AllRecorded(ms1)
    ensures Restored(Restored(fs, OursFrom(ms2, 0)), OursFrom(ms1, 0)) == Restored(fs, OursFrom(ms1 + ms2, 0))
  {
    hide Restored, Ours, Recorded;
    OursOfBoth(ms1, ms2);
    var ms := ms1 + ms2;
    forall q, a | q in OursFrom(ms2, 0) && a in OursFrom(ms1, 0) ensures !(q <= a) {
      var j :| 0 <= j < |ms2| && q in Ours(ms2[j]);
      var i :| 0 <= i < |ms1| && a in Ours(ms1[i]);
      assert ms[i] == ms1[i] && ms[|ms1| + j] == ms2[j];
      OursIsOnTheWay(ms1[i]);
    }
    RestoredTwice(fs, OursFrom(ms2, 0), OursFrom(ms1, 0));
  }

  /** The RUN step only added to the tree, and made no further name for a bind's file. */
  ghost predicate OnlyAdded(fs: Fs, ts: seq<Target>, fs': Fs) {
    && (forall q :: q in fs ==> q in fs' && fs'[q] == fs[q])
    && (forall q, t :: q in fs' && q !in fs && t in ts && t.path in fs ==> fs'[q].id != fs[t.path].id)
  }

  /** After such a step the cleanup leaves the original tree, what the step
      added, and of the directories made for the mounts those that hold
      something the step added. */
  lemma SiblingsStay(fs: Fs, first: nat, ts: seq<Target>, ms: seq<Mount>, fs1: Fs, next: nat, fs2: Fs)
    requires Root(fs, first) && Built(fs, first, ts, ms, fs1, next) && OnlyAdded(fs1, ts, fs2)
    ensures Layered(ms) && AllKept(fs2, ms)
    ensures var left := Restored(fs2, OursFrom(ms, 0));
            && (forall q :: q in left ==> left[q] == fs2[q])
            && (forall q :: q in left <==> q in fs || (q in fs2 && q !in fs1) || (q in fs1 && exists e :: e in fs2 && e !in fs1 && q < e))
  {
    hide Root, WellFormed, Reaches, AllRecorded, CleansWell, Kept;
    BuiltCleans(fs, first, ts, ms, fs1, next);
    forall i | 0 <= i < |ms| ensures Kept(fs2, ms[i]) {
      assert Kept(fs1, ms[i]);
      KeptWhenAdded(fs1, ts, fs2, ms[i]);
    }
    forall q | q in fs1 && q !in fs ensures OnlyOurs(fs2, q, OursFrom(ms, 0)) <==> !exists e :: e in fs2 && e !in fs1 && q < e {
      OursWhenNothingAdded(fs, first, ts, ms, fs1, next, fs2, q);
    }
  }

  lemma KeptWhenAdded(fs: Fs, ts: seq<Target>, fs': Fs, m: Mount)
    requires OnlyAdded(fs, ts, fs') && m.target in ts && Kept(fs, m)
    ensures Kept(fs', m)
  {
    hide ChainIntact;
    StemStays(fs, fs', Stem(m.target), m.created);
  }

  lemma OursWhenNothingAdded(fs: Fs, first: nat, ts: seq<Target>, ms: seq<Mount>, fs1: Fs, next: nat, fs2: Fs, q: Path)
    requires Root(fs, first) && Built(fs, first, ts, ms, fs1, next) && OnlyAdded(fs1, ts, fs2) && q in fs1 && q !in fs
    ensures OnlyOurs(fs2, q, OursFrom(ms, 0)) <==> !exists e :: e in fs2 && e !in fs1 && q < e
  {
    hide Root, WellFormed, Reaches, AllRecorded, CleansWell, AllKept, Layered, OursFrom;
    forall e | e in fs2 && q <= e ensures q == e || q < e {
      PrefixCases(q, e);
    }
    forall e | e in fs && q <= e ensures false {
      PrefixCases(q, e);
      if q < e {
        RootAbove(fs, first, q, e);
      }
    }
  }

  /** A whole RUN step: its mount targets are made, `step` is whatever the
      command does to the rootfs, and the targets are taken back. A step that
      leaves the rootfs alone leaves it as it was before the setup, and one that
      only adds to it leaves what it added and the directories that needs. */
  method RunTransaction(ghost up: set<Place>, fs: Fs, nextId: nat, caches: seq<Target>, binds: seq<Target>, step: Fs -> Fs, fc: Faults, fb: Faults)
    returns (rc: Outcome, ok: bool, ghost up': set<Place>, fs': Fs, ghost during: Fs)
    requires Root(fs, nextId) && AllValid(caches + binds) && Antichain(caches + binds)
    requires AllOf(caches, Cache) && AllOf(binds, Bind) && Free(up, Cache, caches + binds)
    requires forall f: Fs :: WellFormed(f) && NamesFit(f) ==> WellFormed(step(f)) && NamesFit(step(f))
    ensures rc.Settled? <==> AllHad(fs, Cache, caches, fc) && AllHad(fs, Bind, binds, fb)
    ensures rc.Failed? || (rc.Settled? && ok) ==> up' == up
    ensures rc.Failed? ==> fs' == fs
    ensures rc.Settled? && Gentle(fc) && Gentle(fb) && step(during) == during ==> ok && fs' == fs
    ensures rc.Settled? && Gentle(fc) && Gentle(fb) && OnlyAdded(during, caches + binds, step(during)) ==>
              LeavesAdded(fs, during, step(during), fs') && (ok <==> NothingUnder(fs, caches + binds, step(during)))
  {
    hide Root, Built, Antichain, AllValid, Layered, AllKept, AllRecorded, CleansWell, Tainted, WellFormed, NamesFit, OnlyAdded, Restored, OursFrom, LeavesAdded, AllHad, Places, BoundPlaces, RecordsOf, ToClean, AllOf;
    var nextId', cst, bst;
    ghost var cms, bms;
    rc, up', fs', nextId', cst, bst, cms, bms := SetupRun(up, fs, nextId, caches, binds, fc, fb);
    during, ok := fs', true;
    if !rc.Settled? {
      return;
    }
    ghost var ts, ms := caches + binds, cms + bms;
    BuiltIsRoot(fs, nextId, ts, ms, during, nextId');
    BuiltCleans(fs, nextId, ts, ms, during, nextId');
    RecordedApart(cms, bms);
    CleansRecorded(cms);
    CleansRecorded(bms);
    FewerRecorded(cst.records, fc.stuck);
    FewerRecorded(bst.records, fb.stuck);
    var after := step(fs');
    ok, up', fs', cst, bst := CleanupRun(up', after, cst, bst, fc, fb);
    UndoneIsBase(fs, nextId, ts, ms, during, nextId');
    DiskIsNoTarget(up, ts);
    if OnlyAdded(during, ts, after) {
      SiblingsStay(fs, nextId, ts, ms, during, nextId', after);
      AddedIsLeft(fs, nextId, ts, ms, during, nextId', after);
      CleansWhenUnfilled(fs, nextId, ts, ms, during, nextId', after);
    }
  }

  lemma DiskIsNoTarget(up: set<Place>, ts: seq<Target>)
    requires Free(up, Cache, ts)
    ensures up !! Places(ts) + {CacheDisk}
  {
  }

  /** Nothing was put under a cache target that was not there before. */
  ghost predicate NothingUnder(fs: Fs, ts: seq<Target>, after: Fs) {
    forall t, q :: t in ts && t.kind == Cache && t.path !in fs && q in after ==> !(t.path < q)
  }

  lemma CleansWhenUnfilled(fs: Fs, first: nat, ts: seq<Target>, ms: seq<Mount>, during: Fs, next: nat, after: Fs)
    requires Built(fs, first, ts, ms, during, next) && Antichain(ts)
    ensures CleansWell(after, ms) <==> NothingUnder(fs, ts, after)
  {
    hide Root, Layered, Grown;
    forall i | 0 <= i < |ms| && ms[i].target.kind == Cache ensures ms[i].created != [] <==> ts[i].path !in fs {
      MadeIffMissing(fs, first, ts, ms, during, next, i);
    }
    if CleansWell(after, ms) {
      forall t | t in ts && t.kind == Cache && t.path !in fs ensures forall q :: q in after ==> !(t.path < q) {
        var i :| 0 <= i < |ts| && ts[i] == t;
        assert Unfilled(after, ms[i]);
      }
    }
    if NothingUnder(fs, ts, after) {
      forall i | 0 <= i < |ms| ensures ms[i].identity.Inode? && Unfilled(after, ms[i]) {
        assert ts[i] in ts;
      }
    }
  }

  /** A cache's directories were made exactly when its target was missing. */
  lemma MadeIffMissing(fs: Fs, first: nat, ts: seq<Target>, ms: seq<Mount>, during: Fs, next: nat, i: nat)
    requires Built(fs, first, ts, ms, during, next) && Antichain(ts) && i < |ms| && ms[i].target.kind == Cache
    ensures ms[i].created != [] <==> ts[i].path !in fs
  {
    hide Root, Layered, Grown, CleansWell, Kept, OursFrom, Ours;
    var p := ts[i].path;
    assert Kept(during, ms[i]);
    MadeIsOurs(during, ms[i]);
    KeptIsThere(during, ms[i]);
    assert ms[i].created != [] ==> p in OursFrom(ms, 0);
    if p !in fs {
      assert p in OursFrom(ms, 0);
      var j :| 0 <= j < |ms| && p in Ours(ms[j]);
      OursIsOnTheWay(ms[j]);
      assert ts[j].path == ms[j].target.path;
      assert i == j;
    }
  }

  lemma MadeIsOurs(fs: Fs, m: Mount)
    requires m.target.kind == Cache && m.identity.Inode? && Kept(fs, m)
    ensures m.target.path in Ours(m) <==> m.created != []
  {
  }

  /** What is left is the original tree, what the step added, and of the
      directories made for the mounts those that hold something it added. */
  ghost predicate LeavesAdded(fs: Fs, during: Fs, after: Fs, left: Fs) {
    && (forall q :: q in left ==> q in after && left[q] == after[q])
    && (forall q :: q in left <==> q in fs || (q in after && q !in during) || (q in during && exists e :: e in after && e !in during && q < e))
  }

  lemma AddedIsLeft(fs: Fs, first: nat, ts: seq<Target>, ms: seq<Mount>, during: Fs, next: nat, after: Fs)
    requires Root(fs, first) && Built(fs, first, ts, ms, during, next) && OnlyAdded(during, ts, after)
    ensures LeavesAdded(fs, during, after, Restored(after, OursFrom(ms, 0)))
  {
    hide Root, Built, OnlyAdded, OursFrom;
    SiblingsStay(fs, first, ts, ms, during, next, after);
  }

  lemma RecordedApart(ms1: seq<Mount>, ms2: seq<Mount>)
    requires AllRecorded(ms1 + ms2)
    ensures AllRecorded(ms1) && AllRecorded(ms2)
  {
    hide Recorded;
    var ms := ms1 + ms2;
    assert forall i :: 0 <= i < |ms1| ==> ms[i] == ms1[i];
    assert forall i :: 0 <= i < |ms2| ==> ms[|ms1| + i] == ms2[i];
  }

  const NO_FAULTS := Faults(false, false, {}, {}, {}, {}, {}, false)

  /** The case that cannot be undone is real: on a bare root, with nothing else
      going wrong, a cache target with a name of 256 characters below a missing
      directory. */
  lemma LongNamePoisons(root: Meta, name: Name)
    requires |name| == 256
    ensures Tainted(map[[] := Node(0, Dir(root))], [], Cache, [Target(Cache, ["a", name])], NO_FAULTS)
  {
    var fs, t := map[[] := Node(0, Dir(root))], Target(Cache, ["a", name]);
    assert t.path[..0] == [] && t.path[..1] == ["a"];
    assert !Reaches([], ["a"]);
    assert |t.path[1]| > NAME_MAX;
    assert StrandsAt(fs, [], t, 0);
    assert [] + [t][..0] == [];
    assert !Preparable(fs, t);
    assert Stops(fs, Cache, [t], NO_FAULTS, 0);
  }

  /** And it is the only one, next to a source that was lost while it was opened. */
  lemma FittingNamesNeverPoison(fs: Fs, earlier: seq<Target>, kind: Kind, ts: seq<Target>, f: Faults)
    requires f.lost == {} && forall t, i :: t in ts && 0 <= i < |t.path| ==> |t.path[i]| <= NAME_MAX
    ensures !Tainted(fs, earlier, kind, ts, f)
  {
    forall n: nat | Stops(fs, kind, ts, f, n) ensures !Strands(fs, earlier + ts[..n], ts[n]) {
      assert ts[n] in ts;
      assert |Stem(ts[n])| <= |ts[n].path|;
    }
  }
}
