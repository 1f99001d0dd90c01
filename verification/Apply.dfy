/** The privileged applier: one component, then a whole pass, then the trust-state advance. */
module Apply {
  import opened Files
  import opened Hashing
  import opened Components
  import opened Swap
  import opened Install
  import opened Rollback
  import opened Selection
  import opened Persist
  import opened TrustStore
  import I = Installed
  import opened Pass
  import opened Health

  /** The disk went from `o` to `files` through `seen` with no file directly in `dir` ever changing. */
  ghost predicate Guarded(o: Tree, seen0: set<Tree>, files: Tree, seen: set<Tree>, dir: string) {
    && seen0 <= seen && SameInDir(o, files, dir)
    && forall s :: s in seen ==> s in seen0 || SameInDir(o, s, dir)
  }

  lemma {:induction false} GuardedTransitive(o: Tree, seen0: set<Tree>, mid: Tree, seen1: set<Tree>, files: Tree,
                                             seen2: set<Tree>, dir: string)
    requires Guarded(o, seen0, mid, seen1, dir) && Guarded(mid, seen1, files, seen2, dir)
    ensures Guarded(o, seen0, files, seen2, dir)
  {}

  lemma {:induction false} FootprintGuards(o: Tree, seen0: set<Tree>, files: Tree, seen: set<Tree>, members: seq<Path>,
                                           dir: string)
    requires seen0 <= seen && SameOutside(o, files, Footprint(members))
    requires forall s :: s in seen ==> s in seen0 || SameOutside(o, s, Footprint(members))
    requires forall m :: m in members ==> m.dir != dir
    ensures Guarded(o, seen0, files, seen, dir)
  {
    FootprintLeavesDirAlone(o, files, members, dir);
    forall s | s in seen && s !in seen0
      ensures SameInDir(o, s, dir)
    {
      FootprintLeavesDirAlone(o, s, members, dir);
    }
  }

  /** `b` is the verified content of one of the component's signed variants. */
  ghost predicate SignedBytes(h: HashFn, pc: PlannedComponent, b: Bytes) {
    exists v :: v in pc.variants && Verifies(h, v.expectedDigest, b)
  }

  /** Every refreshed binary holds one and the same content, and variant `v`'s signed digest admits it. */
  ghost predicate HoldsVariant(h: HashFn, pc: PlannedComponent, step: InstallStep, t: Tree, v: PlannedVariant) {
    && pc.dest in t && Verifies(h, v.expectedDigest, t[pc.dest])
    && forall m :: m in Refreshed(pc, step) ==> m in t && t[m] == t[pc.dest]
  }

  /** What one component's result promises about the disk. */
  ghost predicate ApplyEnd(ev: Evidence, cache: LkgCache, pc: PlannedComponent, step: InstallStep, private: Path,
                           o: Tree, after: Tree, result: ComponentResult) {
    && (result == ComponentResult.Installed ==>
          exists v :: v in pc.variants && GatePasses(ev, cache, after, pc, v.expectedDigest)
                      && (pc.method_.RawBinary? ==> HoldsVariant(cache.h, pc, step, after, v)))
    && (result == RolledBack ==> forall m :: m in pc.Binaries() ==> AsBefore(cache.h, o, after, m))
    && (result == ComponentResult.Deferred && pc.method_.RawBinary? ==>
          && (forall m :: m in pc.Binaries() ==>
                SameAt(o, after, m) || (m in after && SignedBytes(cache.h, pc, after[m])))
          && (step.SelfSwap? || pc.aliases == [] ==> SameAt(o, after, pc.dest)))
    && (result == Refused ==> SameOutside(o, after, {private}))
    && result != Skipped && result != Held
  }

  /** The control calls of one component: none, a failed stop alone, or a stop answered by one start. */
  ghost predicate Bracket(calls: seq<ServiceEvent>, service: Option<string>) {
    || calls == []
    || (service.Some? && calls == [Stop(service.value, false)])
    || (service.Some? && exists ok: bool :: calls == [Stop(service.value, true), Start(service.value, ok)])
  }

  /** Between a successful stop and its start, and only then, the disk went from `o` to `after`. */
  ghost predicate WhileStopped(calls: seq<ServiceEvent>, at: seq<Tree>, o: Tree, after: Tree) {
    |calls| == 2 ==> at == [o, after]
  }

  /** The one control call made was a stop, and it failed. */
  predicate StopFailed(calls: seq<ServiceEvent>, service: Option<string>) {
    service.Some? && calls == [Stop(service.value, false)]
  }

  /** At every point only files outside the trust state have changed. */
  ghost predicate TrustKept(dir: string, o: Tree, seen0: set<Tree>, files: Tree, seen: set<Tree>) {
    && seen0 <= seen && SameTrust(dir, o, files)
    && forall s :: s in seen ==> s in seen0 || SameTrust(dir, o, s)
  }

  lemma {:induction false} TrustKeptTransitive(dir: string, o: Tree, seen0: set<Tree>, mid: Tree, seen1: set<Tree>,
                                               files: Tree, seen2: set<Tree>)
    requires TrustKept(dir, o, seen0, mid, seen1) && TrustKept(dir, mid, seen1, files, seen2)
    ensures TrustKept(dir, o, seen0, files, seen2)
  {}

  lemma {:induction false} GuardedKeepsTrust(dir: string, o: Tree, seen0: set<Tree>, files: Tree, seen: set<Tree>)
    requires Guarded(o, seen0, files, seen, dir)
    ensures TrustKept(dir, o, seen0, files, seen)
  {}

  /** A component's promise speaks only of its own binaries, so later writes elsewhere keep it. */
  lemma {:induction false} ApplyEndStable(ev: Evidence, cache: LkgCache, pc: PlannedComponent, step: InstallStep,
                                          private: Path, o: Tree, a: Tree, b: Tree, result: ComponentResult)
    requires ApplyEnd(ev, cache, pc, step, private, o, a, result) && result != Refused
    requires SetAsBefore(a, b, pc.Binaries())
    ensures ApplyEnd(ev, cache, pc, step, private, o, b, result)
  {
    assert pc.dest == pc.Binaries()[0] && pc.dest in pc.Binaries();
    if result == ComponentResult.Installed {
      var v :| v in pc.variants && GatePasses(ev, cache, a, pc, v.expectedDigest)
               && (pc.method_.RawBinary? ==> HoldsVariant(cache.h, pc, step, a, v));
      assert GatePasses(ev, cache, b, pc, v.expectedDigest);
      assert pc.method_.RawBinary? ==> HoldsVariant(cache.h, pc, step, b, v);
    }
  }

  class Installer {
    const disk: Disk
    const staging: Staging
    const services: ServiceManager
    const cache: LkgCache
    const ev: Evidence
    const loadable: Bytes -> Loadability
    const policy: RetryPolicy
    const serviceOf: string -> Option<string>
    const trusted: bool                  // a trusted absolute OS installer was found on this host
    const stateDir: string
    const applyDir: string
    const channel: Channel
    const codec: JsonCodec
    const records: I.InstalledBuildStore
    const suppressStateAdvance: bool

    constructor (disk: Disk, staging: Staging, services: ServiceManager, cache: LkgCache, ev: Evidence,
                 loadable: Bytes -> Loadability, policy: RetryPolicy, serviceOf: string -> Option<string>,
                 trusted: bool, stateDir: string, applyDir: string, channel: Channel, codec: JsonCodec,
                 builds: I.BuildsCodec, overridden: bool)
      requires cache.dir != stateDir && applyDir != stateDir && cache.dir != applyDir
      ensures Configured()
      ensures this.disk == disk && this.staging == staging && this.services == services && this.cache == cache
      ensures this.stateDir == stateDir && this.applyDir == applyDir && this.channel == channel && this.codec == codec
      ensures suppressStateAdvance == overridden && this.ev == ev && this.serviceOf == serviceOf
    {
      this.disk, this.staging, this.services, this.cache, this.ev := disk, staging, services, cache, ev;
      this.loadable, this.policy, this.serviceOf, this.trusted := loadable, policy, serviceOf, trusted;
      this.stateDir, this.applyDir, this.channel, this.codec := stateDir, applyDir, channel, codec;
      this.records := I.InstalledBuildStore(I.BuildsFile(stateDir, channel), builds);
      this.suppressStateAdvance := overridden;
    }

    /** The cache, the apply directory and the state directory are three different places. */
    predicate Configured() {
      cache.dir != stateDir && applyDir != stateDir && cache.dir != applyDir
      && records.path == I.BuildsFile(stateDir, channel)
    }

    function Private(pc: PlannedComponent): Path { PrivateTarget(pc, applyDir) }

    /** The beacon's own directories. */
    function Own(): set<string> { {cache.dir, stateDir, applyDir} }

    /** A planned component this host can apply: its binaries lie outside the beacon's own directories. */
    ghost predicate Applicable(pc: PlannedComponent) {
      && Snapshottable(cache, pc)
      && (forall m :: m in pc.Binaries() ==> m.dir != stateDir && m.dir != applyDir)
      && (pc.name == BEACON_COMPONENT_NAME ==> pc.method_.RawBinary?)
    }

    lemma {:induction false} PrivateIsPrivate(pc: PlannedComponent)
      requires Configured() && Applicable(pc)
      ensures Private(pc) !in pc.Binaries() && Private(pc).dir != stateDir && Private(pc).dir != cache.dir
      ensures Placeable(pc, Private(pc), stateDir)
    {
      assert pc.dest == pc.Binaries()[0] && pc.dest in pc.Binaries();
      if pc.method_.RawBinary? {
        forall i | 0 <= i < |pc.Binaries()|
          ensures pc.Binaries()[i] != Private(pc)
        {
          assert Ordinary(pc.Binaries()[i]);
        }
      }
    }

    /** Turn the install outcome into a result: gate the set's health, roll the set back on any failure. */
    method FinishApply(pc: PlannedComponent, floor: nat, snaps: seq<BinarySnapshot>, outcome: InstallOutcome,
                       expected: string, ghost o: Tree, ghost new_: Bytes)
      returns (r: Result<ComponentResult>)
      requires disk.Valid() && Configured() && Applicable(pc) && |snaps| == |pc.Binaries()|
      requires forall i :: 0 <= i < |snaps| ==> Captures(cache, o, snaps[i], pc.Binaries()[i])
      modifies disk
      ensures disk.Valid() && Guarded(old(disk.files), old(disk.seen), disk.files, disk.seen, stateDir)
      ensures r == Ok(ComponentResult.Installed) ==>
                && outcome == InstallOutcome.Installed && disk.files == old(disk.files)
                && GatePasses(ev, cache, disk.files, pc, expected)
      ensures r == Ok(ComponentResult.Deferred) ==> outcome == InstallOutcome.Deferred && disk.files == old(disk.files)
      ensures r == Ok(RolledBack) ==> forall m :: m in pc.Binaries() ==> AsBefore(cache.h, o, disk.files, m)
      ensures r.Ok? ==> r.value in {ComponentResult.Installed, ComponentResult.Deferred, RolledBack}
      ensures r.Err? ==> r.error == RollbackFailed
      ensures Quiet(disk.answers) && AllCached(cache, old(disk.files), snaps) ==> r.Ok?
      ensures Quiet(disk.answers) && outcome == InstallOutcome.Installed
                && GatePasses(ev, cache, old(disk.files), pc, expected) ==>
                r == Ok(ComponentResult.Installed)
      ensures RollingBack(cache, pc.Binaries(), old(disk.files), disk.files, o, new_)
      ensures forall s :: s in disk.seen ==>
                s in old(disk.seen) || RollingBack(cache, pc.Binaries(), old(disk.files), s, o, new_)
    {
      if outcome == InstallOutcome.Deferred {
        return Ok(ComponentResult.Deferred);
      }
      if outcome == InstallOutcome.Installed {
        var healthy := CheckBinarySet(disk, ev, cache, pc, expected);
        if healthy {
          return Ok(ComponentResult.Installed);
        }
      }
      var back := RollbackSet(disk, cache, snaps, floor, pc.Binaries(), o, new_);
      FootprintGuards(old(disk.files), old(disk.seen), disk.files, disk.seen, pc.Binaries(), stateDir);
      if back.Err? {
        return Err(back.error);
      }
      forall i | 0 <= i < |pc.Binaries()|
        ensures AsBefore(cache.h, o, disk.files, pc.Binaries()[i])
      {
        PutBackIsRestored(cache, o, disk.files, snaps[i], pc.Binaries()[i]);
      }
      r := Ok(RolledBack);
    }

    /** Everything is in place for the install: the snapshots of `o`'s set, and a verified private copy. */
    ghost predicate Ready(pc: PlannedComponent, step: InstallStep, snaps: seq<BinarySnapshot>, expected: string,
                          o: Tree, t: Tree) {
      && Configured() && Applicable(pc) && |snaps| == |pc.Binaries()|
      && (forall i :: 0 <= i < |snaps| ==> Captures(cache, o, snaps[i], pc.Binaries()[i]))
      && SetAsBefore(o, t, pc.Binaries()) && (step.SelfSwap? ==> pc.method_.RawBinary?)
      && Private(pc) in t && Verifies(cache.h, expected, t[Private(pc)])
      && exists v :: v in pc.variants && v.expectedDigest == expected
    }

    /** The disk between a component's snapshot and its result: the state directory is never written. */
    ghost predicate Replaced(pc: PlannedComponent, start: Tree, seen0: set<Tree>, files: Tree, seen: set<Tree>) {
      && Guarded(start, seen0, files, seen, stateDir)
      && (Confined(disk.foreign, pc, Own()) ==> KeptElsewhere(pc, Own(), start, files))
    }

    /** Install, gate and roll back: everything between the stop and the start. */
    method InstallAndFinish(pc: PlannedComponent, step: InstallStep, floor: nat, snaps: seq<BinarySnapshot>,
                            expected: string, ghost o: Tree)
      returns (r: Result<ComponentResult>)
      requires disk.Valid() && Ready(pc, step, snaps, expected, o, disk.files)
      modifies disk
      ensures disk.Valid() && Replaced(pc, old(disk.files), old(disk.seen), disk.files, disk.seen)
      ensures r.Ok? ==> ApplyEnd(ev, cache, pc, step, Private(pc), o, disk.files, r.value) && r.value != Refused
      ensures r.Err? ==> r.error == RollbackFailed
      ensures NothingLost(pc, o, old(disk.seen), disk.files, disk.seen)
      ensures Quiet(disk.answers) && pc.method_.RawBinary? && AllCached(cache, old(disk.files), snaps) ==> r.Ok?
      ensures Quiet(disk.answers) && WholeSet(pc, step) && r != Ok(ComponentResult.Installed) ==> SomeUnhealthy(pc)
    {
      PrivateIsPrivate(pc);
      ghost var new_ := disk.files[Private(pc)];
      ghost var start, seen0 := disk.files, disk.seen;
      var outcome := InstallFromPrivate(disk, policy, pc, Private(pc), step, stateDir, Own());
      ghost var mid, seen1 := disk.files, disk.seen;
      if pc.method_.RawBinary? && AllCached(cache, start, snaps) {
        CacheUntouched(cache, start, mid, pc.Binaries(), snaps);
      }
      r := FinishApply(pc, floor, snaps, outcome, expected, o, new_);
      GuardedTransitive(start, seen0, mid, seen1, disk.files, disk.seen, stateDir);
      FootprintIsOwn(pc, Own(), mid, disk.files);
      if r.Ok? { ResultEnds(pc, step, snaps, expected, o, start, mid, disk.files, outcome, r.value); }
      ghost var v :| v in pc.variants && v.expectedDigest == expected;
      assert SignedBytes(cache.h, pc, new_);
      if pc.method_.RawBinary? { PhaseLosesNothing(pc, o, start, seen0, mid, seen1, disk.files, disk.seen, new_); }
      if WholeSet(pc, step) && outcome == InstallOutcome.Installed && !Unhealthy(pc, new_) {
        NewBytesPassTheGate(pc, step, mid, new_, expected);
      }
    }

    /** No binary of the set is lost: as before, signed content of this component, or set aside whole under `.old`. */
    ghost predicate Unlost(pc: PlannedComponent, o: Tree, s: Tree) {
      forall m :: m in pc.Binaries() ==>
        AsBefore(cache.h, o, s, m) || (m in s && SignedBytes(cache.h, pc, s[m])) || SetAside(o, s, m)
    }

    /** From `seen0` on, no state loses a binary of a raw component. */
    ghost predicate NothingLost(pc: PlannedComponent, o: Tree, seen0: set<Tree>, files: Tree, seen: set<Tree>) {
      pc.method_.RawBinary? ==> Unlost(pc, o, files) && forall s :: s in seen ==> s in seen0 || Unlost(pc, o, s)
    }

    /** A state of the install, or of the rollback after it, loses nothing. */
    lemma {:induction false} InstallLosesNothing(pc: PlannedComponent, o: Tree, start: Tree, mid: Tree, s: Tree,
                                                 new_: Bytes)
      requires SetAsBefore(o, start, pc.Binaries()) && SignedBytes(cache.h, pc, new_) && SetStep(pc, start, mid, new_)
      requires SetStep(pc, start, s, new_) || RollingBack(cache, pc.Binaries(), mid, s, o, new_)
      ensures Unlost(pc, o, s)
    {
      SetStepLosesNothing(pc, o, start, mid, new_);
      if SetStep(pc, start, s, new_) { SetStepLosesNothing(pc, o, start, s, new_); }
      assert SetNotLost(cache.h, o, s, pc.Binaries(), new_);
      forall m | m in pc.Binaries()
        ensures AsBefore(cache.h, o, s, m) || (m in s && SignedBytes(cache.h, pc, s[m])) || SetAside(o, s, m)
      {
        assert NotLost(cache.h, o, s, m, new_);
      }
    }

    lemma {:induction false} PhaseLosesNothing(pc: PlannedComponent, o: Tree, start: Tree, seen0: set<Tree>, mid: Tree,
                                               seen1: set<Tree>, files: Tree, seen: set<Tree>, new_: Bytes)
      requires SetAsBefore(o, start, pc.Binaries()) && SignedBytes(cache.h, pc, new_) && SetStep(pc, start, mid, new_)
      requires forall s :: s in seen1 ==> s in seen0 || SetStep(pc, start, s, new_)
      requires RollingBack(cache, pc.Binaries(), mid, files, o, new_)
      requires forall s :: s in seen ==> s in seen1 || RollingBack(cache, pc.Binaries(), mid, s, o, new_)
      ensures NothingLost(pc, o, seen0, files, seen)
    {
      forall s | s == files || (s in seen && s !in seen0) ensures Unlost(pc, o, s) {
        InstallLosesNothing(pc, o, start, mid, s, new_);
      }
    }

    lemma {:induction false} SetStepLosesNothing(pc: PlannedComponent, o: Tree, start: Tree, s: Tree, new_: Bytes)
      requires SetAsBefore(o, start, pc.Binaries()) && SetStep(pc, start, s, new_)
      ensures SetNotLost(cache.h, o, s, pc.Binaries(), new_)
    {
      forall m | m in pc.Binaries() ensures NotLost(cache.h, o, s, m, new_) {
        assert SameAt(o, start, m) && BinaryState(start, s, m, new_);
      }
    }

    /** States that leave the set's binaries as they were lose nothing. */
    lemma {:induction false} UntouchedLosesNothing(pc: PlannedComponent, o: Tree, s: Tree)
      requires SetAsBefore(o, s, pc.Binaries())
      ensures Unlost(pc, o, s)
    {}

    /** The install step's end and the gate's verdict make up the component's promise. */
    lemma {:induction false} ResultEnds(pc: PlannedComponent, step: InstallStep, snaps: seq<BinarySnapshot>,
                                        expected: string, o: Tree, start: Tree, mid: Tree, after: Tree,
                                        outcome: InstallOutcome, result: ComponentResult)
      requires Ready(pc, step, snaps, expected, o, start)
      requires pc.method_.RawBinary? ==> RawStepEnd(pc, step, start, mid, outcome, start[Private(pc)])
      requires result in {ComponentResult.Installed, ComponentResult.Deferred, RolledBack}
      requires result == ComponentResult.Installed ==>
                 outcome == InstallOutcome.Installed && after == mid && GatePasses(ev, cache, after, pc, expected)
      requires result == ComponentResult.Deferred ==> outcome == InstallOutcome.Deferred && after == mid
      requires result == RolledBack ==> forall m :: m in pc.Binaries() ==> AsBefore(cache.h, o, after, m)
      ensures ApplyEnd(ev, cache, pc, step, Private(pc), o, after, result)
    {
      var v :| v in pc.variants && v.expectedDigest == expected;
      assert SignedBytes(cache.h, pc, start[Private(pc)]);
      assert pc.dest == pc.Binaries()[0] && pc.dest in pc.Binaries();
      if pc.method_.RawBinary? && result == ComponentResult.Installed {
        assert Refreshed(pc, step)[0] == pc.dest && pc.dest in Refreshed(pc, step);
        assert HoldsVariant(cache.h, pc, step, after, v);
      }
    }

    /** A raw binary whose every binary the step refreshes. */
    predicate WholeSet(pc: PlannedComponent, step: InstallStep) {
      pc.method_.RawBinary? && (step.Generic? || pc.aliases == [])
    }

    /** Content a component is asked to run, which does not then report the planned version. */
    predicate Unhealthy(pc: PlannedComponent, b: Bytes) {
      pc.evidence.RequiresExecution() && (ev.probe(b) == Absent || ev.decide(ev.probe(b), pc.version) != Skip)
    }

    ghost predicate SomeUnhealthy(pc: PlannedComponent) {
      exists b :: SignedBytes(cache.h, pc, b) && Unhealthy(pc, b)
    }

    lemma {:induction false} NewBytesPassTheGate(pc: PlannedComponent, step: InstallStep, t: Tree, new_: Bytes,
                                                 expected: string)
      requires WholeSet(pc, step) && !Unhealthy(pc, new_) && Verifies(cache.h, expected, new_)
      requires forall m :: m in Refreshed(pc, step) ==> m in t && t[m] == new_
      ensures GatePasses(ev, cache, t, pc, expected)
    {
      GateIsCaseInsensitiveEquality(expected, cache.h.Of(new_));
      assert Refreshed(pc, step) == pc.Binaries() && pc.dest == pc.Binaries()[0];
    }

    /** Drop the private copy; nothing else changes. */
    method DiscardPrivate(pc: PlannedComponent)
      requires disk.Valid() && Configured() && Applicable(pc)
      modifies disk
      ensures disk.Valid() && OnlyPrivate(old(disk.files), old(disk.seen), disk.files, disk.seen, Private(pc))
      ensures Quiet(disk.answers) ==> Private(pc) !in disk.files
    {
      var _ := disk.Remove(Private(pc));
    }

    /** Stop the service if there is one, run the core, and start it again on every path. */
    method ApplySelected(pc: PlannedComponent, step: InstallStep, floor: nat, snaps: seq<BinarySnapshot>,
                         expected: string, ghost o: Tree)
      returns (r: Result<ComponentResult>)
      requires disk.Valid() && Ready(pc, step, snaps, expected, o, disk.files)
      modifies disk, services
      ensures disk.Valid() && Replaced(pc, old(disk.files), old(disk.seen), disk.files, disk.seen)
      ensures r.Ok? ==> ApplyEnd(ev, cache, pc, step, Private(pc), o, disk.files, r.value) && r.value != Refused
      ensures NothingLost(pc, o, old(disk.seen), disk.files, disk.seen)
      ensures old(services.log) <= services.log && Bracket(services.log[|old(services.log)|..], serviceOf(pc.name))
      ensures serviceOf(pc.name).Some? ==> services.log != old(services.log)
      ensures old(services.moments) <= services.moments
      ensures WhileStopped(services.log[|old(services.log)|..], services.moments[|old(services.moments)|..],
                           old(disk.files), disk.files)
      ensures StopFailed(services.log[|old(services.log)|..], serviceOf(pc.name)) ==>
                r == Ok(ComponentResult.Deferred) && SetAsBefore(o, disk.files, pc.Binaries())
      ensures Quiet(disk.answers) && pc.method_.RawBinary? && AllCached(cache, old(disk.files), snaps) ==> r.Ok?
      ensures Quiet(disk.answers) && WholeSet(pc, step) && r != Ok(ComponentResult.Installed) ==>
                SomeUnhealthy(pc) || StopFailed(services.log[|old(services.log)|..], serviceOf(pc.name))
    {
      ghost var log0, at0, start := services.log, services.moments, disk.files;
      var service := serviceOf(pc.name);
      if service.Some? {
        var stopped := services.StopService(service.value, disk.files);
        assert services.log[|log0|..] == [Stop(service.value, stopped)];
        if !stopped {
          ghost var seen0 := disk.seen;
          DiscardPrivate(pc);
          DiscardIsHarmless(pc, o, start, seen0, disk.files, disk.seen);
          return Ok(ComponentResult.Deferred);
        }
      }
      r := InstallAndFinish(pc, step, floor, snaps, expected, o);
      if service.Some? {
        var started := services.StartService(service.value, disk.files);
        assert services.moments[|at0|..] == [start, disk.files];
        assert services.log[|log0|..] == [Stop(service.value, true), Start(service.value, started)];
      }
    }

    lemma {:induction false} DiscardIsHarmless(pc: PlannedComponent, o: Tree, start: Tree, seen0: set<Tree>,
                                               files: Tree, seen: set<Tree>)
      requires Configured() && Applicable(pc) && OnlyPrivate(start, seen0, files, seen, Private(pc))
      requires SetAsBefore(o, start, pc.Binaries())
      ensures Replaced(pc, start, seen0, files, seen) && SetAsBefore(o, files, pc.Binaries())
      ensures NothingLost(pc, o, seen0, files, seen)
    {
      StagingIsGuarded(pc, start, seen0, files, seen);
      forall s | s in seen && s !in seen0 ensures Unlost(pc, o, s) {
        forall m | m in pc.Binaries() ensures SameAt(o, s, m) { assert SameAt(o, start, m) && SameAt(start, s, m); }
        UntouchedLosesNothing(pc, o, s);
      }
      FootprintHolds(pc.Binaries(), 0);
      assert pc.Binaries()[0] == pc.dest;
    }

    /** The build a result leaves on disk: the manifest's, or the one a rollback reinstated. */
    function BuildAfter(pc: PlannedComponent, result: ComponentResult): Option<nat> {
      if result == RolledBack then pc.installedBuild else Some(pc.build)
    }

    /** A result that is remembered: an install or a rollback, on the feed the channel tracks. */
    predicate Remembered(r: Result<ComponentResult>) {
      !suppressStateAdvance && r in {Ok(ComponentResult.Installed), Ok(RolledBack)}
    }

    /** The build record after a component, whose record step began as primitive `n`: untouched unless remembered. */
    ghost predicate RecordEnd(pc: PlannedComponent, o: Tree, after: Tree, n: nat, r: Result<ComponentResult>) {
      if Remembered(r) then I.RecordedFrom(records, o, after, disk.answers, n, pc.name, BuildAfter(pc, r.value))
      else SameAt(o, after, records.path)
    }

    /** How many primitives the record step begun as primitive `n` takes. */
    function RecordTicks(n: nat, r: Result<ComponentResult>): nat {
      if Remembered(r) then 1 + Spent(disk.answers, n + 1) else 0
    }

    /** Remember the build now on disk after an install or a rollback; best-effort, and never off an overridden feed. */
    method RecordInstalledBuild(pc: PlannedComponent, result: ComponentResult)
      requires disk.Valid() && Configured()
      modifies disk
      ensures disk.Valid() && TrustKept(stateDir, old(disk.files), old(disk.seen), disk.files, disk.seen)
      ensures SameOutside(old(disk.files), disk.files, {records.path, records.path.WithExtension(JSON_TMP_EXT)})
      ensures forall s :: s in disk.seen ==>
                s in old(disk.seen)
                || SameOutside(old(disk.files), s, {records.path, records.path.WithExtension(JSON_TMP_EXT)})
      ensures RecordEnd(pc, old(disk.files), disk.files, old(disk.tick), Ok(result))
      ensures disk.tick == old(disk.tick) + RecordTicks(old(disk.tick), Ok(result))
    {
      if suppressStateAdvance {
        return;
      }
      var build;
      match result {
        case Installed => build := Some(pc.build);
        case RolledBack => build := pc.installedBuild;
        case _ => return;
      }
      assert |JSON_TMP_EXT| == 8 && |"json"| == 4;
      var _ := I.Record(disk, records, pc.name, build);
      I.BuildsFileIsNoTrustFile(stateDir, channel, Nightly);
      I.BuildsFileIsNoTrustFile(stateDir, channel, Stable);
    }

    /** Select a loadable variant and snapshot the set; `None` when every variant is refused. */
    method Prepare(pc: PlannedComponent, ghost step: InstallStep)
      returns (r: Result<Option<(string, seq<BinarySnapshot>)>>, ghost staged: seq<Bytes>)
      requires disk.Valid() && Configured() && Applicable(pc) && (step.SelfSwap? ==> pc.method_.RawBinary?)
      modifies disk, staging
      ensures disk.Valid() && Prepared(pc, old(disk.files), old(disk.seen), disk.files, disk.seen)
      ensures r.Ok? && r.value.None? ==> SameOutside(old(disk.files), disk.files, {Private(pc)})
      ensures r.Ok? && r.value.Some? ==> Ready(pc, step, r.value.value.1, r.value.value.0, old(disk.files), disk.files)
      ensures r.Ok? && r.value.Some? && KeysApart(cache, pc) ==> AllCached(cache, disk.files, r.value.value.1)
      ensures r.Ok? ==> Inspected(pc, staged) && (r.value.None? <==> !SomeUsable(loadable, staged))
      ensures r.Err? && Quiet(disk.answers) ==> Misserved(cache.h, staging.feeds, staging.asked)
    {
      PrivateIsPrivate(pc);
      ghost var o, seen0 := disk.files, disk.seen;
      var sel, copied :=
          SelectLoadableVariant(disk, staging, cache.h, loadable, pc.variants, Private(pc), pc.method_.RawBinary?);
      ghost var t1, seen1 := disk.files, disk.seen;
      StagingIsGuarded(pc, o, seen0, t1, seen1);
      staged := copied;
      if sel.Err? {
        r := Err(sel.error);
        return;
      }
      RefusedMeansEveryVariant(cache.h, loadable, pc.variants, Private(pc), t1, sel.value, staged);
      if sel.value.AllUnloadable? {
        DiscardPrivate(pc);
        OnlyPrivateTransitive(o, seen0, t1, seen1, disk.files, disk.seen, Private(pc));
        StagingIsGuarded(pc, o, seen0, disk.files, disk.seen);
        r := Ok(None);
        return;
      }
      var snaps := SnapshotSet(disk, cache, pc);
      SnapshotIsGuarded(pc, o, seen0, t1, seen1, disk.files, disk.seen);
      if snaps.Err? {
        r := Err(snaps.error);
        return;
      }
      forall i | 0 <= i < |snaps.value| ensures Captures(cache, o, snaps.value[i], pc.Binaries()[i]) {
        assert SameAt(o, t1, pc.Binaries()[i]);
      }
      assert pc.variants[Choose(Verdicts(loadable, staged)).idx] in pc.variants;
      r := Ok(Some((sel.value.expectedDigest, snaps.value)));
    }

    /** `staged` is verified content of the first variants, in order, all of them unless the last one loads. */
    ghost predicate Inspected(pc: PlannedComponent, staged: seq<Bytes>) {
      && |staged| <= |pc.variants|
      && (forall j :: 0 <= j < |staged| ==> Verifies(cache.h, pc.variants[j].expectedDigest, staged[j]))
      && (|staged| < |pc.variants| ==> staged != [] && loadable(staged[|staged| - 1]) == Loadable)
    }

    /** The disk before a component's service is touched: only its private copy and the cache have changed. */
    ghost predicate Prepared(pc: PlannedComponent, o: Tree, seen0: set<Tree>, files: Tree, seen: set<Tree>) {
      && Guarded(o, seen0, files, seen, stateDir) && SetAsBefore(o, files, pc.Binaries())
      && (forall s :: s in seen ==> s in seen0 || SetAsBefore(o, s, pc.Binaries()))
      && KeptElsewhere(pc, Own(), o, files)
    }

    /** What one component's turn comes to: its end on disk, its build record, and its service calls. */
    ghost predicate ComponentTurn(pc: PlannedComponent, step: InstallStep, before: Tree, after: Tree,
                                  calls: seq<ServiceEvent>, at: seq<Tree>, recordAt: nat, r: Result<ComponentResult>) {
      && (r.Ok? ==> ApplyEnd(ev, cache, pc, step, Private(pc), before, after, r.value))
      && RecordEnd(pc, before, after, recordAt, r)
      && (Confined(disk.foreign, pc, Own()) ==> KeptElsewhere(pc, Own(), before, after))
      && Bracket(calls, serviceOf(pc.name))
      && (StopFailed(calls, serviceOf(pc.name)) ==>
            r == Ok(ComponentResult.Deferred) && SetAsBefore(before, after, pc.Binaries()))
      && (r == Ok(Refused) ==> calls == [])
      && (r.Ok? && r.value != Refused && serviceOf(pc.name).Some? ==> calls != [])
      && ChangedWhileStopped(pc, before, after, calls, at)
    }

    /** A service's binaries change only between its stop and its start. */
    ghost predicate ChangedWhileStopped(pc: PlannedComponent, before: Tree, after: Tree, calls: seq<ServiceEvent>,
                                        at: seq<Tree>) {
      if |calls| == 2 then
        |at| == 2 && SetAsBefore(before, at[0], pc.Binaries()) && SetAsBefore(at[1], after, pc.Binaries())
      else serviceOf(pc.name).Some? ==> SetAsBefore(before, after, pc.Binaries())
    }

    /** From the snapshot on: stop, install, gate, start, and remember the build now on disk. */
    method ApplyAndRecord(pc: PlannedComponent, step: InstallStep, floor: nat, snaps: seq<BinarySnapshot>,
                          expected: string, ghost o: Tree, ghost seen0: set<Tree>)
      returns (r: Result<ComponentResult>, ghost recordAt: nat)
      requires disk.Valid() && Ready(pc, step, snaps, expected, o, disk.files)
      requires Prepared(pc, o, seen0, disk.files, disk.seen)
      modifies disk, services
      ensures disk.Valid() && TrustKept(stateDir, o, seen0, disk.files, disk.seen)
      ensures NothingLost(pc, o, seen0, disk.files, disk.seen)
      ensures old(services.log) <= services.log && old(services.moments) <= services.moments
      ensures ComponentTurn(pc, step, o, disk.files, services.log[|old(services.log)|..],
                            services.moments[|old(services.moments)|..], recordAt, r)
      ensures disk.tick == recordAt + RecordTicks(recordAt, r) && r != Ok(Refused)
      ensures Quiet(disk.answers) && pc.method_.RawBinary? && AllCached(cache, old(disk.files), snaps) ==> r.Ok?
      ensures Quiet(disk.answers) && WholeSet(pc, step) && r != Ok(ComponentResult.Installed) ==>
                SomeUnhealthy(pc) || StopFailed(services.log[|old(services.log)|..], serviceOf(pc.name))
    {
      ghost var t2, seen2, log0, at0 := disk.files, disk.seen, services.log, services.moments;
      r := ApplySelected(pc, step, floor, snaps, expected, o);
      ghost var t3, seen3 := disk.files, disk.seen;
      ghost var calls, at := services.log[|log0|..], services.moments[|at0|..];
      ReplacedAfterPrepared(pc, o, seen0, t2, seen2, t3, seen3);
      recordAt := disk.tick;
      if r.Ok? {
        RecordInstalledBuild(pc, r.value);
        RecordingKeepsAll(pc, step, o, seen0, t3, seen3, disk.files, disk.seen, recordAt, r.value);
        RecordingLosesNothing(pc, o, seen0, t3, seen3, disk.files, disk.seen);
      }
      StoppedBetween(pc, o, t2, t3, disk.files, calls, at);
    }

    lemma {:induction false} RecordingLosesNothing(pc: PlannedComponent, o: Tree, seen0: set<Tree>, t3: Tree,
                                                   seen3: set<Tree>, t4: Tree, seen4: set<Tree>)
      requires Configured() && Applicable(pc) && NothingLost(pc, o, seen0, t3, seen3)
      requires SameOutside(t3, t4, {records.path, records.path.WithExtension(JSON_TMP_EXT)})
      requires forall s :: s in seen4 ==>
                 s in seen3 || SameOutside(t3, s, {records.path, records.path.WithExtension(JSON_TMP_EXT)})
      ensures NothingLost(pc, o, seen0, t4, seen4)
    {
      if pc.method_.RawBinary? {
        forall s | SameOutside(t3, s, {records.path, records.path.WithExtension(JSON_TMP_EXT)})
          ensures Unlost(pc, o, s)
        {
          UnlostIsStable(pc, o, t3, s);
        }
      }
    }

    lemma {:induction false} UnlostIsStable(pc: PlannedComponent, o: Tree, t: Tree, s: Tree)
      requires Configured() && Applicable(pc) && Unlost(pc, o, t)
      requires SameOutside(t, s, {records.path, records.path.WithExtension(JSON_TMP_EXT)})
      ensures Unlost(pc, o, s)
    {
      forall m | m in pc.Binaries()
        ensures AsBefore(cache.h, o, s, m) || (m in s && SignedBytes(cache.h, pc, s[m])) || SetAside(o, s, m)
      {
        assert SameAt(t, s, m) && SameAt(t, s, m.WithExtension(SUPERSEDED_EXT));
      }
    }

    /** One component, start to finish. */
    method ApplyComponent(pc: PlannedComponent, step: InstallStep, floor: nat)
      returns (r: Result<ComponentResult>, ghost staged: seq<Bytes>, ghost recordAt: nat)
      requires disk.Valid() && Configured() && Applicable(pc) && (step.SelfSwap? ==> pc.method_.RawBinary?)
      modifies disk, staging, services
      ensures disk.Valid() && TrustKept(stateDir, old(disk.files), old(disk.seen), disk.files, disk.seen)
      ensures NothingLost(pc, old(disk.files), old(disk.seen), disk.files, disk.seen)
      ensures old(services.log) <= services.log && old(services.moments) <= services.moments
      ensures ComponentTurn(pc, step, old(disk.files), disk.files, services.log[|old(services.log)|..],
                            services.moments[|old(services.moments)|..], recordAt, r)
      ensures disk.tick == recordAt + RecordTicks(recordAt, r)
      ensures r.Ok? ==> Inspected(pc, staged) && (r.value == Refused <==> !SomeUsable(loadable, staged))
      ensures Quiet(disk.answers) && pc.method_.RawBinary? && KeysApart(cache, pc) && r.Err? ==>
                Misserved(cache.h, staging.feeds, staging.asked)
      ensures Quiet(disk.answers) && WholeSet(pc, step) && r != Ok(ComponentResult.Installed) ==>
                || r == Ok(Refused) || SomeUnhealthy(pc)
                || StopFailed(services.log[|old(services.log)|..], serviceOf(pc.name))
                || (r.Err? && Misserved(cache.h, staging.feeds, staging.asked))
    {
      ghost var o, seen0, log0, at0 := disk.files, disk.seen, services.log, services.moments;
      assert services.log[|log0|..] == [] && services.moments[|at0|..] == [];
      var ready, copied := Prepare(pc, step);
      staged := copied;
      if ready.Err? || ready.value.None? {
        r := if ready.Err? then Err(ready.error) else Ok(Refused);
        recordAt := disk.tick;
        TurnEndsEarly(pc, step, o, seen0, disk.files, disk.seen, recordAt, r);
        return;
      }
      r, recordAt := ApplyAndRecord(pc, step, floor, ready.value.value.1, ready.value.value.0, o, seen0);
    }

    lemma {:induction false} TurnEndsEarly(pc: PlannedComponent, step: InstallStep, o: Tree, seen0: set<Tree>, t: Tree,
                                           seen: set<Tree>, n: nat, r: Result<ComponentResult>)
      requires Configured() && Prepared(pc, o, seen0, t, seen)
      requires r.Err? || (r == Ok(Refused) && SameOutside(o, t, {Private(pc)}))
      ensures TrustKept(stateDir, o, seen0, t, seen) && ComponentTurn(pc, step, o, t, [], [], n, r)
      ensures NothingLost(pc, o, seen0, t, seen)
    {
      forall s | s == t || (s in seen && s !in seen0) ensures Unlost(pc, o, s) {
        UntouchedLosesNothing(pc, o, s);
      }
      GuardedKeepsTrust(stateDir, o, seen0, t, seen);
      assert records.path.dir == stateDir;
    }

    lemma {:induction false} StoppedBetween(pc: PlannedComponent, o: Tree, t2: Tree, t3: Tree, t4: Tree,
                                            calls: seq<ServiceEvent>, at: seq<Tree>)
      requires SetAsBefore(o, t2, pc.Binaries()) && SetAsBefore(t3, t4, pc.Binaries())
      requires WhileStopped(calls, at, t2, t3)
      requires Bracket(calls, serviceOf(pc.name)) && (serviceOf(pc.name).Some? ==> calls != [])
      requires StopFailed(calls, serviceOf(pc.name)) ==> SetAsBefore(o, t3, pc.Binaries())
      ensures ChangedWhileStopped(pc, o, t4, calls, at)
    {
      if |calls| != 2 && serviceOf(pc.name).Some? {
        forall m | m in pc.Binaries() ensures SameAt(o, t4, m) {
          assert SameAt(o, t3, m) && SameAt(t3, t4, m);
        }
      }
    }

    lemma {:induction false} ReplacedAfterPrepared(pc: PlannedComponent, o: Tree, seen0: set<Tree>, t2: Tree,
                                                   seen2: set<Tree>, t3: Tree, seen3: set<Tree>)
      requires Configured() && Prepared(pc, o, seen0, t2, seen2) && Replaced(pc, t2, seen2, t3, seen3)
      ensures TrustKept(stateDir, o, seen0, t3, seen3) && SameAt(o, t3, records.path)
      ensures Confined(disk.foreign, pc, Own()) ==> KeptElsewhere(pc, Own(), o, t3)
    {
      GuardedTransitive(o, seen0, t2, seen2, t3, seen3, stateDir);
      GuardedKeepsTrust(stateDir, o, seen0, t3, seen3);
      assert records.path.dir == stateDir;
    }

    /** Writing the build record disturbs nothing the component's result speaks of. */
    lemma {:induction false} RecordingKeepsAll(pc: PlannedComponent, step: InstallStep, o: Tree, seen0: set<Tree>,
                                               t3: Tree, seen3: set<Tree>, t4: Tree, seen4: set<Tree>, n: nat,
                                               result: ComponentResult)
      requires Configured() && Applicable(pc) && result != Refused
      requires TrustKept(stateDir, o, seen0, t3, seen3) && TrustKept(stateDir, t3, seen3, t4, seen4)
      requires SameOutside(t3, t4, {records.path, records.path.WithExtension(JSON_TMP_EXT)})
      requires ApplyEnd(ev, cache, pc, step, Private(pc), o, t3, result)
      requires SameAt(o, t3, records.path) && RecordEnd(pc, t3, t4, n, Ok(result))
      ensures TrustKept(stateDir, o, seen0, t4, seen4) && SetAsBefore(t3, t4, pc.Binaries())
      ensures ApplyEnd(ev, cache, pc, step, Private(pc), o, t4, result) && RecordEnd(pc, o, t4, n, Ok(result))
      ensures KeptElsewhere(pc, Own(), o, t3) ==> KeptElsewhere(pc, Own(), o, t4)
    {
      TrustKeptTransitive(stateDir, o, seen0, t3, seen3, t4, seen4);
      assert SetAsBefore(t3, t4, pc.Binaries());
      ApplyEndStable(ev, cache, pc, step, Private(pc), o, t3, t4, result);
      assert KeptElsewhere(pc, Own(), t3, t4);
    }

    lemma {:induction false} OnlyPrivateTransitive(o: Tree, seen0: set<Tree>, mid: Tree, seen1: set<Tree>, files: Tree,
                                                   seen2: set<Tree>, private: Path)
      requires OnlyPrivate(o, seen0, mid, seen1, private) && OnlyPrivate(mid, seen1, files, seen2, private)
      ensures OnlyPrivate(o, seen0, files, seen2, private)
    {}

    lemma {:induction false} StagingIsGuarded(pc: PlannedComponent, o: Tree, seen0: set<Tree>, t1: Tree,
                                              seen1: set<Tree>)
      requires Configured() && Applicable(pc) && OnlyPrivate(o, seen0, t1, seen1, Private(pc))
      ensures Guarded(o, seen0, t1, seen1, stateDir) && TrustKept(stateDir, o, seen0, t1, seen1)
      ensures SetAsBefore(o, t1, pc.Binaries())
      ensures forall s :: s in seen1 ==> s in seen0 || SetAsBefore(o, s, pc.Binaries())
      ensures KeptElsewhere(pc, Own(), o, t1)
    {
      PrivateIsPrivate(pc);
      PrivateIsOwn(pc);
      forall p | Elsewhere(pc, Own(), p) ensures SameAt(o, t1, p) {
        assert p != Private(pc);
      }
    }

    lemma {:induction false} PrivateIsOwn(pc: PlannedComponent)
      ensures Private(pc) in Footprint(pc.Binaries()) || Private(pc).dir in Own()
    {
      FootprintHolds(pc.Binaries(), 0);
      assert pc.Binaries()[0] == pc.dest;
    }

    lemma {:induction false} SnapshotIsGuarded(pc: PlannedComponent, o: Tree, seen0: set<Tree>, t1: Tree,
                                               seen1: set<Tree>, t2: Tree, seen2: set<Tree>)
      requires Configured() && Applicable(pc) && OnlyPrivate(o, seen0, t1, seen1, Private(pc))
      requires OnlyDir(t1, seen1, t2, seen2, cache.dir)
      ensures Guarded(o, seen0, t2, seen2, stateDir) && TrustKept(stateDir, o, seen0, t2, seen2)
      ensures SetAsBefore(o, t2, pc.Binaries()) && SameAt(t1, t2, Private(pc))
      ensures forall s :: s in seen2 ==> s in seen0 || SetAsBefore(o, s, pc.Binaries())
      ensures KeptElsewhere(pc, Own(), o, t2)
    {
      PrivateIsPrivate(pc);
      StagingIsGuarded(pc, o, seen0, t1, seen1);
      assert Guarded(t1, seen1, t2, seen2, stateDir);
      GuardedTransitive(o, seen0, t1, seen1, t2, seen2, stateDir);
    }
  }
}
