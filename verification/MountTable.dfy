/** The mounts of the RUN step in progress, as the exec op holds them
    (guest/minimal-initrd/agent.h, guest/minimal-initrd/build_run.c). */
module MountTables {
  import opened Tree
  import opened TargetDirectories
  import opened MountTargets
  import opened RunMounts
  import opened Rootfs

  /** The targets of a RUN request as its parser lets them through. */
  ghost predicate Mountable(caches: seq<Target>, binds: seq<Target>) {
    AllValid(caches + binds) && Antichain(caches + binds) && AllOf(caches, Cache) && AllOf(binds, Bind)
  }

  class MountTable {
    /** `cache_state` and `bind_state`. */
    var caches: MountState
    var binds: MountState
    /** The root file system, which RUN steps and other requests change in between. */
    var rootfs: Fs
    var nextId: nat
    /** What is mounted for RUN steps. */
    ghost var up: set<Place>

    constructor ()
      ensures Valid() && !Recorded() && Accounted()
    {
      caches, binds, nextId, up := NO_MOUNTS, NO_MOUNTS, 1, {};
      rootfs := map[[] := Node(0, Dir(ROOT_0755))];
      new;
      NothingToClean();
    }

    ghost predicate Valid()
      reads this
    {
      WellFormed(rootfs) && NamesFit(rootfs) && AllRecorded(ToClean(caches.records, {})) && AllRecorded(ToClean(binds.records, {}))
    }

    /** Something is in the records. */
    predicate Recorded()
      reads this
    {
      caches != NO_MOUNTS || binds != NO_MOUNTS
    }

    /** What is mounted is what the records say. */
    ghost predicate Accounted()
      reads this
    {
      up == Bound(caches) + Bound(binds)
    }

    lemma NothingUp()
      requires Accounted() && !Recorded()
      ensures up == {}
    {
    }

    /** The root file system as it is found. */
    method Find(fs: Fs, next: nat)
      requires Valid() && Root(fs, next)
      modifies this`rootfs, this`nextId
      ensures Valid() && rootfs == fs && nextId == next
    {
      rootfs, nextId := fs, next;
    }

    /** The mount setup of a RUN request: everything is mounted and recorded, or
        nothing is mounted and the root file system is as it was, or the outcome
        is uncertain. */
    method SetUp(cacheTargets: seq<Target>, bindTargets: seq<Target>) returns (rc: Outcome)
      requires Valid() && !Recorded() && Accounted() && Root(rootfs, nextId) && Mountable(cacheTargets, bindTargets)
      modifies this
      ensures Valid() && (!rc.Settled? ==> !Recorded()) && (!rc.Uncertain? ==> Accounted())
      ensures rc.Settled? ==> up == Places(cacheTargets + bindTargets) + if cacheTargets != [] then {CacheDisk} else {}
      ensures rc.Failed? ==> up == {} && rootfs == old(rootfs)
    {
      hide WellFormed, NamesFit, Root, Built, AllHad, Places, BoundPlaces, RecordsOf, Tainted, ToClean, AllRecorded, AllValid, Antichain, AllOf;
      var cacheFaults: Faults := *;
      var bindFaults: Faults := *;
      ghost var cms, bms;
      NothingUp();
      FreeWhenNothingUp(cacheTargets + bindTargets);
      rc, up, rootfs, nextId, caches, binds, cms, bms := SetupRun(up, rootfs, nextId, cacheTargets, bindTargets, cacheFaults, bindFaults);
      NothingToClean();
      if rc.Settled? {
        BuiltCleans(old(rootfs), old(nextId), cacheTargets + bindTargets, cms + bms, rootfs, nextId);
        RecordedApart(cms, bms);
        CleansRecorded(cms);
        CleansRecorded(bms);
      }
    }

    /** `cleanup_build_run_mounts`: the records are cleared, and when it
        succeeds nothing they named is mounted. */
    method TearDown() returns (ok: bool)
      requires Valid()
      modifies this
      ensures Valid() && !Recorded() && (ok ==> up !! old(Bound(caches) + Bound(binds))) && up <= old(up)
      ensures ok && old(Accounted()) ==> up == {} && Accounted()
    {
      hide WellFormed, NamesFit, AllRecorded, ToClean, Bound, CleansWell, Releases, Layered, AllKept, OursFrom, Restored;
      var cacheFaults: Faults := *;
      var bindFaults: Faults := *;
      FewerRecorded(caches.records, cacheFaults.stuck);
      FewerRecorded(binds.records, bindFaults.stuck);
      ok, up, rootfs, caches, binds := CleanupRun(up, rootfs, caches, binds, cacheFaults, bindFaults);
      NothingToClean();
    }
  }

  lemma NothingToClean()
    ensures AllRecorded(ToClean(NO_MOUNTS.records, {})) && Bound(NO_MOUNTS) == {}
  {
  }

  lemma FreeWhenNothingUp(ts: seq<Target>)
    ensures Free({}, Cache, ts)
  {
  }
}
