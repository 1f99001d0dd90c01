/**
 Applying one planned component: select a loadable variant, snapshot the whole binary set, stop the
 service, install, gate the set's health, roll the set back on failure, and always start the service.
 */
module Pass {
  import opened Files
  import opened Hashing
  import opened Components
  import opened Install
  import opened Rollback
  import opened Health

  datatype ComponentResult = Installed | Skipped | Deferred | RolledBack | Held | Refused

  datatype ServiceEvent = Stop(service: string, ok: bool) | Start(service: string, ok: bool)

  /** The service manager: every control call is logged with its result and the disk it was made over. */
  class ServiceManager {
    const refusals: seq<bool>   // which control calls the manager refuses; past its end it obeys
    var log: seq<ServiceEvent>
    ghost var moments: seq<Tree>

    constructor (refusals: seq<bool>)
      ensures this.refusals == refusals && log == [] && moments == []
    {
      this.refusals, this.log := refusals, [];
      this.moments := [];
    }

    method StopService(service: string, ghost now: Tree) returns (ok: bool)
      modifies this
      ensures log == old(log) + [Stop(service, ok)] && moments == old(moments) + [now]
    {
      moments := moments + [now];
      ok := |log| >= |refusals| || !refusals[|log|];
      log := log + [Stop(service, ok)];
    }

    method StartService(service: string, ghost now: Tree) returns (ok: bool)
      modifies this
      ensures log == old(log) + [Start(service, ok)] && moments == old(moments) + [now]
    {
      moments := moments + [now];
      ok := |log| >= |refusals| || !refusals[|log|];
      log := log + [Start(service, ok)];
    }
  }

  /** The health gate over the whole set; a digest-evidenced component is re-hashed, never run. */
  ghost predicate GatePasses(ev: Evidence, cache: LkgCache, t: Tree, pc: PlannedComponent, expected: string) {
    if pc.evidence.RequiresExecution() then forall m :: m in pc.Binaries() ==> Healthy(ev, t, m, pc.version)
    else pc.dest in t && EqIgnoreAsciiCase(cache.DigestOf(t[pc.dest]), expected)
  }

  method CheckBinarySet(disk: Disk, ev: Evidence, cache: LkgCache, pc: PlannedComponent, expected: string)
    returns (ok: bool)
    requires disk.Valid()
    modifies disk`tick
    ensures ok ==> GatePasses(ev, cache, disk.files, pc, expected)
    ensures Quiet(disk.answers) ==> (ok <==> GatePasses(ev, cache, disk.files, pc, expected))
  {
    if !pc.evidence.RequiresExecution() {
      var bytes := disk.Read(pc.dest);
      return bytes.Some? && EqIgnoreAsciiCase(cache.DigestOf(bytes.value), expected);
    }
    if !Healthy(ev, disk.files, pc.dest, pc.version) {
      return false;
    }
    var i := 0;
    while i < |pc.aliases|
      invariant 0 <= i <= |pc.aliases|
      invariant forall k :: 0 <= k < i ==> Healthy(ev, disk.files, pc.aliases[k], pc.version)
    {
      if !Healthy(ev, disk.files, pc.aliases[i], pc.version) {
        assert pc.aliases[i] in pc.Binaries();
        return false;
      }
      i := i + 1;
    }
    ok := true;
  }

  // ---------------------------------------------------------------- snapshotting and restoring the set

  datatype BinarySnapshot = BinarySnapshot(dest: Path, entry: Option<LkgEntry>)

  function PrimaryKey(component: string): Key { Key(component, None) }
  function AliasKey(component: string, alias: Path): Key { Key(component + "--" + alias.stem, alias.ext) }

  /** The set can be cached: it lies outside the cache, and no alias's extension is the record's. */
  ghost predicate Snapshottable(cache: LkgCache, pc: PlannedComponent) {
    && BinarySet(pc.Binaries())
    && (forall m :: m in pc.Binaries() ==> m.dir != cache.dir && m.ext != Some("json"))
  }

  /** The snapshot remembers what `o` holds at `m`: its digest, or that nothing is there. */
  ghost predicate Captures(cache: LkgCache, o: Tree, snap: BinarySnapshot, m: Path) {
    && snap.dest == m
    && (snap.entry.None? <==> m !in o)
    && (m in o ==> snap.entry.value.dest == m && snap.entry.value.digest == cache.DigestOf(o[m]))
  }

  /** The cache still holds what the snapshot took: an in-place restore would find its bytes and accept them. */
  ghost predicate Cached(cache: LkgCache, t: Tree, snap: BinarySnapshot) {
    snap.entry.Some? ==>
        RestoreAllowed(cache, snap.entry.value, 0, InPlace, t) && snap.entry.value.cachedPath.dir == cache.dir
  }

  ghost predicate AllCached(cache: LkgCache, t: Tree, snaps: seq<BinarySnapshot>) {
    forall i :: 0 <= i < |snaps| ==> Cached(cache, t, snaps[i])
  }

  /** The cache key of each binary of the set, the primary's first. */
  function SetKeys(pc: PlannedComponent): (keys: seq<Key>)
    ensures |keys| == |pc.Binaries()|
  {
    [PrimaryKey(pc.name)] + seq(|pc.aliases|, i requires 0 <= i < |pc.aliases| => AliasKey(pc.name, pc.aliases[i]))
  }

  /** No two binaries of the set are cached under one file. */
  ghost predicate KeysApart(cache: LkgCache, pc: PlannedComponent) {
    forall i, j :: 0 <= i < j < |SetKeys(pc)| ==> cache.CachePaths(SetKeys(pc)[i]) !! cache.CachePaths(SetKeys(pc)[j])
  }

  /** A set with at most one alias always has its keys apart, whatever the names are. */
  lemma {:induction false} OneAliasKeepsKeysApart(cache: LkgCache, pc: PlannedComponent)
    requires |pc.aliases| <= 1
    ensures KeysApart(cache, pc)
  {
    if |pc.aliases| == 1 {
      var p, a := PrimaryKey(pc.name), AliasKey(pc.name, pc.aliases[0]);
      assert |a.stem| > |p.stem| && |a.FullName()| > |p.FullName()|;
      assert SetKeys(pc)[0] == p && SetKeys(pc)[1] == a;
    }
  }

  /** Only files in `dir` differ. */
  ghost predicate SameOutsideDir(a: Tree, b: Tree, dir: string) {
    forall p: Path :: p.dir != dir ==> SameAt(a, b, p)
  }

  /** The disk has gone from `o` (with crash points `seen0`) touching files in `dir` only. */
  ghost predicate OnlyDir(o: Tree, seen0: set<Tree>, files: Tree, seen: set<Tree>, dir: string) {
    && seen0 <= seen && SameOutsideDir(o, files, dir)
    && forall s :: s in seen ==> s in seen0 || SameOutsideDir(o, s, dir)
  }

  /** Snapshot one member into the cache. */
  method SnapshotMember(disk: Disk, cache: LkgCache, key: Key, m: Path, build: Option<nat>, ghost o: Tree,
                        ghost seen0: set<Tree>)
    returns (r: Result<BinarySnapshot>)
    requires disk.Valid() && CacheKey(key) && m.dir != cache.dir
    requires OnlyDir(o, seen0, disk.files, disk.seen, cache.dir)
    modifies disk
    ensures disk.Valid() && OnlyDir(o, seen0, disk.files, disk.seen, cache.dir)
    ensures r.Ok? ==> Captures(cache, o, r.value, m) && Cached(cache, disk.files, r.value)
    ensures r.Ok? && r.value.entry.Some? ==> r.value.entry.value.cachedPath == cache.CachedPath(key)
    ensures SameOutside(old(disk.files), disk.files, cache.CachePaths(key))
    ensures Quiet(disk.answers) ==> r.Ok?
  {
    ghost var mid, before := disk.files, disk.seen;
    assert SameAt(o, mid, m);
    var entry := Snapshot(disk, cache, key, m, build);
    CacheWritesStayInside(cache, o, mid, disk.files, key, m, build);
    forall s | s in disk.seen && s !in before
      ensures SameOutsideDir(o, s, cache.dir)
    {
      CacheWritesStayInside(cache, o, mid, s, key, m, build);
    }
    if entry.Err? {
      return Err(entry.error);
    }
    r := Ok(BinarySnapshot(m, entry.value));
  }

  lemma {:induction false} CacheWritesStayInside(cache: LkgCache, o: Tree, mid: Tree, s: Tree, key: Key, m: Path,
                                                 build: Option<nat>)
    requires SameOutsideDir(o, mid, cache.dir) && SnapshotState(cache, mid, s, key, m, build)
    ensures SameOutsideDir(o, s, cache.dir)
  {
    forall p: Path | p.dir != cache.dir ensures SameAt(o, s, p) {
      assert p !in cache.CachePaths(key);
      assert SameAt(o, mid, p) && SameAt(mid, s, p);
    }
  }

  /** The snapshots of the first members: each captures its binary under its own key, and stays restorable. */
  ghost predicate SetSoFar(cache: LkgCache, pc: PlannedComponent, o: Tree, t: Tree, snaps: seq<BinarySnapshot>) {
    && |snaps| <= |pc.Binaries()|
    && Captured(cache, pc, o, snaps)
    && (KeysApart(cache, pc) ==> AllCached(cache, t, snaps))
  }

  /** Snapshot the next binary of the set under its key. */
  method SnapshotNext(disk: Disk, cache: LkgCache, pc: PlannedComponent, snaps: seq<BinarySnapshot>, ghost o: Tree,
                      ghost seen0: set<Tree>)
    returns (r: Result<seq<BinarySnapshot>>)
    requires disk.Valid() && Snapshottable(cache, pc) && OnlyDir(o, seen0, disk.files, disk.seen, cache.dir)
    requires SetSoFar(cache, pc, o, disk.files, snaps) && |snaps| < |pc.Binaries()|
    modifies disk
    ensures disk.Valid() && OnlyDir(o, seen0, disk.files, disk.seen, cache.dir)
    ensures r.Ok? ==> SetSoFar(cache, pc, o, disk.files, r.value) && |r.value| == |snaps| + 1
    ensures Quiet(disk.answers) ==> r.Ok?
  {
    var n := |snaps|;
    KeyOfMember(cache, pc, n);
    ghost var mid := disk.files;
    var key := if n == 0 then PrimaryKey(pc.name) else AliasKey(pc.name, pc.aliases[n - 1]);
    var next := SnapshotMember(disk, cache, key, pc.Binaries()[n], pc.installedBuild, o, seen0);
    if next.Err? { return Err(next.error); }
    SetGrows(cache, pc, o, mid, disk.files, snaps, next.value);
    r := Ok(snaps + [next.value]);
  }

  lemma {:induction false} KeyOfMember(cache: LkgCache, pc: PlannedComponent, n: nat)
    requires Snapshottable(cache, pc) && n < |pc.Binaries()|
    ensures SetKeys(pc)[n] == if n == 0 then PrimaryKey(pc.name) else AliasKey(pc.name, pc.aliases[n - 1])
    ensures CacheKey(SetKeys(pc)[n]) && pc.Binaries()[n].dir != cache.dir
  {
    assert pc.Binaries()[n] in pc.Binaries() && Ordinary(pc.Binaries()[n]);
  }

  /** Each snapshot captures its binary of the set under its own key. */
  ghost predicate Captured(cache: LkgCache, pc: PlannedComponent, o: Tree, snaps: seq<BinarySnapshot>)
    requires |snaps| <= |pc.Binaries()|
  {
    forall k :: 0 <= k < |snaps| ==>
        Captures(cache, o, snaps[k], pc.Binaries()[k]) && KeyedBy(cache, snaps[k], SetKeys(pc)[k])
  }

  lemma {:induction false} CapturedGrows(cache: LkgCache, pc: PlannedComponent, o: Tree, snaps: seq<BinarySnapshot>,
                                         next: BinarySnapshot)
    requires |snaps| < |pc.Binaries()| && Captured(cache, pc, o, snaps)
    requires Captures(cache, o, next, pc.Binaries()[|snaps|]) && KeyedBy(cache, next, SetKeys(pc)[|snaps|])
    ensures Captured(cache, pc, o, snaps + [next])
  {}

  lemma {:induction false} SetGrows(cache: LkgCache, pc: PlannedComponent, o: Tree, mid: Tree, t: Tree,
                                    snaps: seq<BinarySnapshot>, next: BinarySnapshot)
    requires SetSoFar(cache, pc, o, mid, snaps) && |snaps| < |pc.Binaries()|
    requires Captures(cache, o, next, pc.Binaries()[|snaps|]) && KeyedBy(cache, next, SetKeys(pc)[|snaps|])
    requires Cached(cache, t, next)
    requires SameOutside(mid, t, cache.CachePaths(SetKeys(pc)[|snaps|]))
    ensures SetSoFar(cache, pc, o, t, snaps + [next])
  {
    CapturedGrows(cache, pc, o, snaps, next);
    if KeysApart(cache, pc) {
      OthersStayCached(cache, pc, mid, t, snaps, |snaps|);
      CachedGrows(cache, t, snaps, next);
    }
  }

  lemma {:induction false} CachedGrows(cache: LkgCache, t: Tree, snaps: seq<BinarySnapshot>, next: BinarySnapshot)
    requires AllCached(cache, t, snaps) && Cached(cache, t, next)
    ensures AllCached(cache, t, snaps + [next])
  {}

  /** Snapshot the primary, then every alias. */
  method SnapshotSet(disk: Disk, cache: LkgCache, pc: PlannedComponent) returns (r: Result<seq<BinarySnapshot>>)
    requires disk.Valid() && Snapshottable(cache, pc)
    modifies disk
    ensures disk.Valid() && OnlyDir(old(disk.files), old(disk.seen), disk.files, disk.seen, cache.dir)
    ensures r.Ok? ==> |r.value| == |pc.Binaries()| && SetSoFar(cache, pc, old(disk.files), disk.files, r.value)
    ensures Quiet(disk.answers) ==> r.Ok?
  {
    ghost var o, seen0 := disk.files, disk.seen;
    var snapshots: seq<BinarySnapshot> := [];
    while |snapshots| < |pc.Binaries()|
      invariant disk.Valid() && OnlyDir(o, seen0, disk.files, disk.seen, cache.dir)
      invariant SetSoFar(cache, pc, o, disk.files, snapshots)
      decreases |pc.Binaries()| - |snapshots|
    {
      r := SnapshotNext(disk, cache, pc, snapshots, o, seen0);
      if r.Err? { return; }
      snapshots := r.value;
    }
    r := Ok(snapshots);
  }

  ghost predicate KeyedBy(cache: LkgCache, snap: BinarySnapshot, key: Key) {
    snap.entry.Some? ==> snap.entry.value.cachedPath == cache.CachedPath(key)
  }

  /** Snapshotting member `n` leaves the earlier members' cached copies as they were. */
  lemma {:induction false} OthersStayCached(cache: LkgCache, pc: PlannedComponent, a: Tree, b: Tree,
                                            snaps: seq<BinarySnapshot>, n: nat)
    requires KeysApart(cache, pc) && |snaps| <= n < |SetKeys(pc)| && AllCached(cache, a, snaps)
    requires forall k :: 0 <= k < |snaps| ==> KeyedBy(cache, snaps[k], SetKeys(pc)[k])
    requires SameOutside(a, b, cache.CachePaths(SetKeys(pc)[n]))
    ensures AllCached(cache, b, snaps)
  {
    forall k | 0 <= k < |snaps| ensures Cached(cache, b, snaps[k]) {
      if snaps[k].entry.Some? {
        var p := cache.CachedPath(SetKeys(pc)[k]);
        assert p in cache.CachePaths(SetKeys(pc)[k]) && p !in cache.CachePaths(SetKeys(pc)[n]);
        assert SameAt(a, b, p) && Cached(cache, a, snaps[k]);
      }
    }
  }

  /** What does not touch the cache leaves every snapshot restorable. */
  lemma {:induction false} CacheUntouched(cache: LkgCache, a: Tree, b: Tree, members: seq<Path>,
                                          snaps: seq<BinarySnapshot>)
    requires SameOutside(a, b, Footprint(members)) && AllCached(cache, a, snaps)
    requires forall m :: m in members ==> m.dir != cache.dir
    ensures AllCached(cache, b, snaps)
  {
    FootprintLeavesDirAlone(a, b, members, cache.dir);
    forall k | 0 <= k < |snaps| ensures Cached(cache, b, snaps[k]) {
      assert Cached(cache, a, snaps[k]);
      if snaps[k].entry.Some? { assert SameAt(a, b, snaps[k].entry.value.cachedPath); }
    }
  }

  /** The member is back: the bytes with the digest the snapshot took, or absent again. */
  ghost predicate PutBack(cache: LkgCache, snap: BinarySnapshot, t: Tree) {
    match snap.entry
    case Some(e) => snap.dest in t && cache.DigestOf(t[snap.dest]) == e.digest
    case None => snap.dest !in t
  }

  /** The set holds exactly what it held. */
  ghost predicate SetAsBefore(o: Tree, after: Tree, members: seq<Path>) {
    forall m :: m in members ==> SameAt(o, after, m)
  }

  /** The member holds what it held; the alternative is a collision between the two contents. */
  ghost predicate AsBefore(h: HashFn, o: Tree, t: Tree, m: Path) {
    SameAt(o, t, m) || (m in o && m in t && Collision(h, o[m], t[m]))
  }

  /** A member put back is the member as it was: the same bytes, or absent again. */
  lemma {:induction false} PutBackIsRestored(cache: LkgCache, o: Tree, after: Tree, snap: BinarySnapshot, m: Path)
    requires Captures(cache, o, snap, m) && PutBack(cache, snap, after)
    ensures AsBefore(cache.h, o, after, m)
  {
    if m in o {
      HexLowerInjective(cache.h.Of(o[m]), cache.h.Of(after[m]));
    }
  }

  /** A binary is never lost: as before, new, or set aside whole. */
  ghost predicate NotLost(h: HashFn, o: Tree, s: Tree, m: Path, new_: Bytes) {
    AsBefore(h, o, s, m) || (m in s && s[m] == new_) || SetAside(o, s, m)
  }

  ghost predicate SetNotLost(h: HashFn, o: Tree, s: Tree, members: seq<Path>, new_: Bytes) {
    forall m :: m in members ==> NotLost(h, o, s, m, new_)
  }

  /** Every state of putting one member back: it is still what it was, or it is back already. */
  ghost predicate PutBackStep(cache: LkgCache, snap: BinarySnapshot, o: Tree, s: Tree) {
    && SameOutside(o, s, {snap.dest, snap.dest.WithExtension(LKG_TMP_EXT)})
    && (SameAt(o, s, snap.dest) || PutBack(cache, snap, s))
  }

  lemma {:induction false} PutBackStepLosesNothing(cache: LkgCache, o: Tree, mid: Tree, s: Tree, snap: BinarySnapshot,
                                                   members: seq<Path>, i: nat,
                                                   new_: Bytes)
    requires BinarySet(members) && i < |members| && Captures(cache, o, snap, members[i])
    requires PutBackStep(cache, snap, mid, s)
    requires SetNotLost(cache.h, o, mid, members, new_)
    ensures SetNotLost(cache.h, o, s, members, new_)
  {
    forall k | 0 <= k < |members| ensures NotLost(cache.h, o, s, members[k], new_) {
      var m, old_ := members[k], members[k].WithExtension(SUPERSEDED_EXT);
      SiblingsAreFour(members[i]);
      ExtensionsDiffer();
      assert m in members && NotLost(cache.h, o, mid, m, new_);
      assert SameAt(mid, s, old_);
      if k != i {
        MembersAreApart(members, i, k);
        assert SameAt(mid, s, m);
      } else if !SameAt(mid, s, m) {
        PutBackIsRestored(cache, o, s, snap, m);
      }
    }
  }

  /** Snapshots of a binary set, each entry restoring to its own member. */
  ghost predicate SetSnapshots(snaps: seq<BinarySnapshot>, members: seq<Path>) {
    && BinarySet(members) && |snaps| == |members|
    && (forall i :: 0 <= i < |snaps| ==> snaps[i].dest == members[i])
    && (forall i :: 0 <= i < |snaps| && snaps[i].entry.Some? ==> snaps[i].entry.value.dest == members[i])
  }

  /** Put one member back: floor-exempt restore, or removal of a fresh placement. */
  method PutBackMember(disk: Disk, cache: LkgCache, snap: BinarySnapshot, floor: nat) returns (r: Result<()>)
    requires disk.Valid() && Ordinary(snap.dest) && (snap.entry.Some? ==> snap.entry.value.dest == snap.dest)
    modifies disk
    ensures disk.Valid() && old(disk.seen) <= disk.seen
    ensures r.Ok? ==> PutBack(cache, snap, disk.files)
    ensures r.Err? ==> r.error == RollbackFailed
    ensures Quiet(disk.answers) && Cached(cache, old(disk.files), snap) ==> r.Ok?
    ensures PutBackStep(cache, snap, old(disk.files), disk.files)
    ensures forall s :: s in disk.seen ==> s in old(disk.seen) || PutBackStep(cache, snap, old(disk.files), s)
  {
    match snap.entry {
      case Some(e) =>
        r := Restore(disk, cache, e, floor, InPlace);
      case None =>
        if snap.dest in disk.files {
          var ok := disk.Remove(snap.dest);
          return if ok then Ok(()) else Err(RollbackFailed);
        }
        r := Ok(());
    }
  }

  /** A state of the rollback of a set: only the set's own files change, and what was not lost stays so. */
  ghost predicate RollingBack(cache: LkgCache, members: seq<Path>, start: Tree, s: Tree, o: Tree, new_: Bytes) {
    && SameOutside(start, s, Footprint(members))
    && (SetNotLost(cache.h, o, start, members, new_) ==> SetNotLost(cache.h, o, s, members, new_))
  }

  /** The members put back so far, and every state so far one of a rollback. */
  ghost predicate BackSoFar(cache: LkgCache, snaps: seq<BinarySnapshot>, members: seq<Path>, i: nat, start: Tree,
                            seen0: set<Tree>, files: Tree, seen: set<Tree>, o: Tree, new_: Bytes) {
    && i <= |snaps| && seen0 <= seen
    && (forall k :: 0 <= k < i ==> PutBack(cache, snaps[k], files))
    && RollingBack(cache, members, start, files, o, new_)
    && forall s :: s in seen ==> s in seen0 || RollingBack(cache, members, start, s, o, new_)
  }

  lemma {:induction false} PutBackStepRollsBack(cache: LkgCache, snaps: seq<BinarySnapshot>, members: seq<Path>, i: nat,
                                                start: Tree, mid: Tree, s: Tree, o: Tree, new_: Bytes)
    requires SetSnapshots(snaps, members) && i < |snaps| && Captures(cache, o, snaps[i], members[i])
    requires RollingBack(cache, members, start, mid, o, new_) && PutBackStep(cache, snaps[i], mid, s)
    ensures RollingBack(cache, members, start, s, o, new_)
  {
    FootprintHolds(members, i);
    Widen(mid, s, {snaps[i].dest, snaps[i].dest.WithExtension(LKG_TMP_EXT)}, Footprint(members));
    FramesCompose(start, mid, s, Footprint(members));
    if SetNotLost(cache.h, o, mid, members, new_) {
      PutBackStepLosesNothing(cache, o, mid, s, snaps[i], members, i, new_);
    }
  }

  /** Every snapshot can be restored in place, and restoring the set cannot disturb the cache. */
  ghost predicate Restorable(cache: LkgCache, t: Tree, snaps: seq<BinarySnapshot>, members: seq<Path>) {
    AllCached(cache, t, snaps) && forall m :: m in members ==> m.dir != cache.dir
  }

  method PutBackNext(disk: Disk, cache: LkgCache, snaps: seq<BinarySnapshot>, i: nat, floor: nat,
                     ghost members: seq<Path>, ghost start: Tree, ghost seen0: set<Tree>, ghost o: Tree,
                     ghost new_: Bytes)
    returns (r: Result<()>)
    requires disk.Valid() && SetSnapshots(snaps, members) && i < |snaps| && Captures(cache, o, snaps[i], members[i])
    requires BackSoFar(cache, snaps, members, i, start, seen0, disk.files, disk.seen, o, new_)
    modifies disk
    ensures disk.Valid()
    ensures BackSoFar(cache, snaps, members, if r.Ok? then i + 1 else 0, start, seen0, disk.files, disk.seen, o, new_)
    ensures r.Err? ==> r.error == RollbackFailed
    ensures Quiet(disk.answers) && Restorable(cache, start, snaps, members) ==> r.Ok?
  {
    ghost var mid, before := disk.files, disk.seen;
    if Restorable(cache, start, snaps, members) {
      CacheUntouched(cache, start, mid, members, snaps);
      assert Cached(cache, mid, snaps[i]);
    }
    r := PutBackMember(disk, cache, snaps[i], floor);
    PutBackStepRollsBack(cache, snaps, members, i, start, mid, disk.files, o, new_);
    forall s | s in disk.seen && s !in before
      ensures RollingBack(cache, members, start, s, o, new_)
    {
      PutBackStepRollsBack(cache, snaps, members, i, start, mid, s, o, new_);
    }
    Widen(mid, disk.files, {snaps[i].dest, snaps[i].dest.WithExtension(LKG_TMP_EXT)}, Siblings(members[i]));
    forall k | 0 <= k < i
      ensures PutBack(cache, snaps[k], disk.files)
    {
      OthersUntouched(mid, disk.files, members, i, k);
    }
  }

  /** Put the whole set back, stopping at the first member that cannot be. */
  method RollbackSet(disk: Disk, cache: LkgCache, snaps: seq<BinarySnapshot>, floor: nat, ghost members: seq<Path>,
                     ghost o: Tree, ghost new_: Bytes)
    returns (r: Result<()>)
    requires disk.Valid() && SetSnapshots(snaps, members)
    requires forall i :: 0 <= i < |snaps| ==> Captures(cache, o, snaps[i], members[i])
    modifies disk
    ensures disk.Valid() && old(disk.seen) <= disk.seen
    ensures r.Ok? ==> forall i :: 0 <= i < |snaps| ==> PutBack(cache, snaps[i], disk.files)
    ensures r.Err? ==> r.error == RollbackFailed
    ensures Quiet(disk.answers) && Restorable(cache, old(disk.files), snaps, members) ==> r.Ok?
    ensures RollingBack(cache, members, old(disk.files), disk.files, o, new_)
    ensures forall s :: s in disk.seen ==>
              s in old(disk.seen) || RollingBack(cache, members, old(disk.files), s, o, new_)
  {
    ghost var start, seen0 := disk.files, disk.seen;
    var i := 0;
    while i < |snaps|
      invariant 0 <= i <= |snaps|
      invariant disk.Valid() && BackSoFar(cache, snaps, members, i, start, seen0, disk.files, disk.seen, o, new_)
    {
      r := PutBackNext(disk, cache, snaps, i, floor, members, start, seen0, o, new_);
      if r.Err? { return; }
      i := i + 1;
    }
    r := Ok(());
  }
}
