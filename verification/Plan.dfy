/**
 Planning a pass: for each tracked component, which evidence tells the installed build, and whether to
 install, update, skip or hold it.
 */
module Plan {
  import opened Files
  import opened Hashing
  import opened Components
  import opened Health
  import opened Rollback
  import opened TrustStore
  import opened Pass
  import I = Installed
  import V = Version

  datatype Platform = Platform(os: string, arch: string)
  datatype Artifact = Artifact(os: string, arch: string, sha256: string, variant: Option<string>)
  datatype ManifestComponent = ManifestComponent(name: string, version: string, build: nat, artifacts: seq<Artifact>)
  datatype Manifest = Manifest(marks: TrustState, components: seq<ManifestComponent>)
  datatype StagedArtifact = StagedArtifact(component: string, os: string, arch: string, variant: Option<string>)

  datatype ComponentTarget = ComponentTarget(name: string, method_: InstallMethod, dest: Path, aliases: seq<Path>,
                                             service: Option<string>, evidence: VersionEvidence)
  {
    function Binaries(): seq<Path> { [dest] + aliases }
  }

  type Catalog = seq<ComponentTarget>

  /** The first target of that name. */
  function Target(catalog: Catalog, name: string): (r: Option<ComponentTarget>)
    ensures r.Some? ==> r.value in catalog && r.value.name == name
    ensures r.None? <==> forall t :: t in catalog ==> t.name != name
  {
    if catalog == [] then None
    else if catalog[0].name == name then Some(catalog[0])
    else Target(catalog[1..], name)
  }

  function ArtifactsFor(artifacts: seq<Artifact>, platform: Platform): (r: seq<Artifact>)
    ensures forall a :: a in r <==> a in artifacts && a.os == platform.os && a.arch == platform.arch
  {
    if artifacts == [] then []
    else if artifacts[0].os == platform.os && artifacts[0].arch == platform.arch then
      [artifacts[0]] + ArtifactsFor(artifacts[1..], platform)
    else ArtifactsFor(artifacts[1..], platform)
  }

  /** A component no evidence of its build may be gathered for. */
  predicate Held(target: ComponentTarget) {
    match target.evidence
    case SafeToProbe => false
    case ArtifactDigest => target.aliases != []
    case UnsafeToProbe => true
  }

  /** A digest-evidenced binary: the promised version on a match, present-but-unreadable on a mismatch. */
  function DigestEvidenceAny(found: Option<string>, digests: seq<string>, version: string): DetectedVersion {
    match found
    case None => Absent
    case Some(f) => if exists d :: d in digests && EqIgnoreAsciiCase(f, d) then Present(version) else Present("")
  }

  /** A current primary with an out-of-date alias is driven again as an update. */
  function RedriveForStaleAlias(ev: Evidence, t: Tree, target: ComponentTarget, version: string,
                                action: UpdateAction): UpdateAction {
    if action == Skip && exists a :: a in target.aliases && ev.decide(Detect(ev, t, a), version) != Skip then
      Update
    else action
  }

  /** Hold back an update to an older build than the one recorded; never anything else. */
  function GuardNewerInstalled(action: UpdateAction, recorded: Option<nat>, build: nat): UpdateAction {
    if action == Update && recorded.Some? && recorded.value > build then Skip else action
  }

  datatype PlanOfPass = PlanOfPass(components: seq<PlannedComponent>, held: seq<string>)

  /** What planning needs to know of the host and of what the worker staged. */
  datatype PlanEnv = PlanEnv(ev: Evidence, h: HashFn, catalog: Catalog, platform: Platform,
                             staged: seq<StagedArtifact>) {
    predicate Staged(component: string, a: Artifact) {
      exists s :: s in staged && s.component == component && s.os == platform.os && s.arch == platform.arch
                  && s.variant == a.variant
    }
  }

  datatype Entry = Ignored | HeldEntry(name: string) | Planned(pc: PlannedComponent)

  function Digests(artifacts: seq<Artifact>): (r: seq<string>)
    ensures |r| == |artifacts| && forall i :: 0 <= i < |r| ==> r[i] == artifacts[i].sha256
  {
    seq(|artifacts|, i requires 0 <= i < |artifacts| => artifacts[i].sha256)
  }

  function Variants(artifacts: seq<Artifact>): (r: seq<PlannedVariant>)
    ensures |r| == |artifacts|
    ensures forall i :: 0 <= i < |r| ==> r[i] == PlannedVariant(artifacts[i].variant, artifacts[i].sha256)
  {
    seq(|artifacts|, i requires 0 <= i < |artifacts| => PlannedVariant(artifacts[i].variant, artifacts[i].sha256))
  }

  /** The digest read of a destination; `readable` is whether the read itself works. */
  function DigestAt(env: PlanEnv, t: Tree, p: Path, readable: bool): Option<string> {
    if p in t && readable then Some(HexLower(env.h.Of(t[p]))) else None
  }

  /** The installed version, from the evidence the declaration names. */
  function Detected(env: PlanEnv, t: Tree, target: ComponentTarget, c: ManifestComponent,
                    readable: bool): DetectedVersion {
    if target.evidence.RequiresExecution() then Detect(env.ev, t, target.dest)
    else
      var digests := Digests(ArtifactsFor(c.artifacts, env.platform));
      DigestEvidenceAny(DigestAt(env, t, target.dest, readable), digests, c.version)
  }

  function ActionFor(env: PlanEnv, t: Tree, target: ComponentTarget, c: ManifestComponent, recorded: I.Builds,
                     readable: bool): UpdateAction {
    var decided := env.ev.decide(Detected(env, t, target, c, readable), c.version);
    if target.evidence.RequiresExecution() then RedriveForStaleAlias(env.ev, t, target, c.version, decided)
    else GuardNewerInstalled(decided, I.BuildOf(recorded, c.name), c.build)
  }

  /** The build a probe's answer packs to; the packing may panic. */
  function InstalledBuild(detected: DetectedVersion): Result<Option<nat>> {
    match detected
    case Absent => Ok(None)
    case Present(raw) =>
      match V.InstalledBuildOf(raw)
      case Build(n) => Ok(Some(n))
      case Unageable => Ok(None)
      case Panics => Err(Panicked)
  }

  /** One manifest component's entry in the plan. */
  function PlanOne(env: PlanEnv, c: ManifestComponent, t: Tree, recorded: I.Builds, readable: bool): Result<Entry> {
    var target := Target(env.catalog, c.name);
    var artifacts := ArtifactsFor(c.artifacts, env.platform);
    if target.None? || artifacts == [] then Ok(Ignored)
    else if Held(target.value) then Ok(HeldEntry(c.name))
    else if exists a :: a in artifacts && !env.Staged(c.name, a) then Err(StagedArtifactMissing)
    else
      var build :- InstalledBuild(Detected(env, t, target.value, c, readable));
      Ok(Planned(PlannedComponent(c.name, target.value.method_, target.value.dest, target.value.aliases,
                                  c.version, c.build,
                                  Variants(artifacts), ActionFor(env, t, target.value, c, recorded, readable), build,
                                  target.value.evidence)))
  }

  function Extend(plan: PlanOfPass, e: Entry): PlanOfPass {
    match e
    case Ignored => plan
    case HeldEntry(name) => plan.(held := plan.held + [name])
    case Planned(pc) => plan.(components := plan.components + [pc])
  }

  /** The plan of the first `n` manifest components. */
  function PlanOf(env: PlanEnv, cs: seq<ManifestComponent>, t: Tree, recorded: I.Builds, readable: seq<bool>,
                  n: nat): Result<PlanOfPass>
    requires n <= |cs| && n <= |readable|
  {
    if n == 0 then Ok(PlanOfPass([], []))
    else
      var plan :- PlanOf(env, cs, t, recorded, readable, n - 1);
      var e :- PlanOne(env, cs[n - 1], t, recorded, readable[n - 1]);
      Ok(Extend(plan, e))
  }

  /** Pair every artifact with what the worker staged for it; one that is missing fails the plan. */
  method StagedVariants(env: PlanEnv, name: string, artifacts: seq<Artifact>) returns (r: Result<seq<PlannedVariant>>)
    ensures r == if exists a :: a in artifacts && !env.Staged(name, a) then Err(StagedArtifactMissing)
                 else Ok(Variants(artifacts))
  {
    var variants: seq<PlannedVariant> := [];
    while |variants| < |artifacts|
      invariant |variants| <= |artifacts|
      invariant forall i :: 0 <= i < |variants| ==> env.Staged(name, artifacts[i])
      invariant variants == Variants(artifacts)[..|variants|]
      decreases |artifacts| - |variants|
    {
      var artifact := artifacts[|variants|];
      if !env.Staged(name, artifact) {
        assert artifact in artifacts;
        return Err(StagedArtifactMissing);
      }
      variants := variants + [PlannedVariant(artifact.variant, artifact.sha256)];
    }
    assert Variants(artifacts)[..|artifacts|] == Variants(artifacts);
    forall a | a in artifacts ensures env.Staged(name, a) {
      var i :| 0 <= i < |artifacts| && artifacts[i] == a;
    }
    r := Ok(variants);
  }

  /** Establish the installed version: run the binary, or hash it without running it. */
  method DetectInstalled(disk: Disk, env: PlanEnv, target: ComponentTarget, c: ManifestComponent)
    returns (detected: DetectedVersion, ghost readable: bool)
    requires disk.Valid()
    modifies disk`tick
    ensures detected == Detected(env, disk.files, target, c, readable)
    ensures Quiet(disk.answers) ==> readable
  {
    readable := true;
    if target.evidence.RequiresExecution() {
      detected := Detect(env.ev, disk.files, target.dest);
      return;
    }
    readable := Reply(disk.answers, disk.tick).Go?;
    var bytes := disk.Read(target.dest);
    var found := if bytes.Some? then Some(HexLower(env.h.Of(bytes.value))) else None;
    detected := DigestEvidenceAny(found, Digests(ArtifactsFor(c.artifacts, env.platform)), c.version);
  }

  method BuildOne(disk: Disk, env: PlanEnv, c: ManifestComponent, recorded: I.Builds)
    returns (r: Result<Entry>, ghost readable: bool)
    requires disk.Valid()
    modifies disk`tick
    ensures r == PlanOne(env, c, disk.files, recorded, readable)
    ensures Quiet(disk.answers) ==> readable
  {
    readable := true;
    var target := Target(env.catalog, c.name);
    if target.None? {
      r := Ok(Ignored);
      return;
    }
    var artifacts := ArtifactsFor(c.artifacts, env.platform);
    if artifacts == [] {
      r := Ok(Ignored);
      return;
    }
    if Held(target.value) {
      r := Ok(HeldEntry(c.name));
      return;
    }
    var detected, worked := DetectInstalled(disk, env, target.value, c);
    readable := worked;
    var variants := StagedVariants(env, c.name, artifacts);
    if variants.Err? {
      r := Err(variants.error);
      return;
    }
    var build := InstalledBuild(detected);
    if build.Err? {
      r := Err(build.error);
      return;
    }
    var decided := env.ev.decide(detected, c.version);
    var action :=
      if target.value.evidence.RequiresExecution() then
        RedriveForStaleAlias(env.ev, disk.files, target.value, c.version, decided)
      else GuardNewerInstalled(decided, I.BuildOf(recorded, c.name), c.build);
    r := Ok(Planned(PlannedComponent(c.name, target.value.method_, target.value.dest, target.value.aliases,
                                     c.version, c.build,
                                     variants.value, action, build.value, target.value.evidence)));
  }

  method Build(disk: Disk, env: PlanEnv, cs: seq<ManifestComponent>, recorded: I.Builds)
    returns (r: Result<PlanOfPass>, ghost readable: seq<bool>)
    requires disk.Valid()
    modifies disk`tick
    ensures |readable| <= |cs| && r == PlanOf(env, cs, disk.files, recorded, readable, |readable|)
    ensures r.Ok? ==> |readable| == |cs|
    ensures Quiet(disk.answers) ==> forall b :: b in readable ==> b
  {
    var components: seq<PlannedComponent>, held: seq<string> := [], [];
    readable := [];
    var i := 0;
    while i < |cs|
      invariant 0 <= i <= |cs| && |readable| == i
      invariant PlanOf(env, cs, disk.files, recorded, readable, i) == Ok(PlanOfPass(components, held))
      invariant Quiet(disk.answers) ==> forall b :: b in readable ==> b
    {
      var entry, worked := BuildOne(disk, env, cs[i], recorded);
      PlanReadsItsOwn(env, cs, disk.files, recorded, readable, [worked], i);
      readable := readable + [worked];
      if entry.Err? {
        r := Err(entry.error);
        return;
      }
      match entry.value {
        case Ignored =>
        case HeldEntry(name) => held := held + [name];
        case Planned(pc) => components := components + [pc];
      }
      i := i + 1;
    }
    r := Ok(PlanOfPass(components, held));
  }

  /** The plan of a prefix depends on that prefix's digest reads alone. */
  lemma {:induction false} PlanReadsItsOwn(env: PlanEnv, cs: seq<ManifestComponent>, t: Tree, recorded: I.Builds,
                                           readable: seq<bool>, more: seq<bool>, n: nat)
    requires n <= |cs| && n <= |readable|
    ensures PlanOf(env, cs, t, recorded, readable + more, n) == PlanOf(env, cs, t, recorded, readable, n)
    decreases n
  {
    if n > 0 {
      PlanReadsItsOwn(env, cs, t, recorded, readable, more, n - 1);
      assert (readable + more)[n - 1] == readable[n - 1];
    }
  }

  // ---------------------------------------------------------------- the gate and the planner agree

  /** The set of `pc` has passed its own health gate, against one of its variants. */
  ghost predicate Current(env: PlanEnv, cache: LkgCache, t: Tree, pc: PlannedComponent) {
    exists v :: v in pc.variants && GatePasses(env.ev, cache, t, pc, v.expectedDigest)
  }

  /** The planner held this component back: its recorded build is newer than the one offered. */
  predicate HeldBack(pc: PlannedComponent, recorded: I.Builds) {
    !pc.evidence.RequiresExecution() && I.BuildOf(recorded, pc.name).Some?
        && I.BuildOf(recorded, pc.name).value > pc.build
  }

  lemma {:induction false} ProbeGateAgrees(ev: Evidence, cache: LkgCache, t: Tree, target: ComponentTarget,
                                           pc: PlannedComponent, digest: string)
    requires LawfulDecide(ev) && pc.evidence == target.evidence && target.evidence.RequiresExecution()
    requires pc.Binaries() == target.Binaries()
    ensures var decided := ev.decide(Detect(ev, t, target.dest), pc.version);
            RedriveForStaleAlias(ev, t, target, pc.version, decided) == Skip <==> GatePasses(ev, cache, t, pc, digest)
  {
    var members := target.Binaries();
    assert members[0] == target.dest;
    assert forall m :: m in members <==> m == target.dest || m in target.aliases;
    forall m | m in members
      ensures Healthy(ev, t, m, pc.version) <==> ev.decide(Detect(ev, t, m), pc.version) == Skip
    {}
  }

  lemma {:induction false} DigestGateAgrees(env: PlanEnv, cache: LkgCache, t: Tree, target: ComponentTarget,
                                            c: ManifestComponent, pc: PlannedComponent)
    requires cache.h == env.h && LawfulDecide(env.ev) && pc.evidence == target.evidence
    requires !target.evidence.RequiresExecution() && pc.dest == target.dest && pc.version == c.version
    requires pc.variants == Variants(ArtifactsFor(c.artifacts, env.platform))
    ensures target.dest !in t ==> !Current(env, cache, t, pc)
    ensures var decided := env.ev.decide(Detected(env, t, target, c, true), c.version);
            decided == if target.dest !in t then Install
                       else if Current(env, cache, t, pc) || c.version == "" then Skip
                       else Update
  {
    var artifacts := ArtifactsFor(c.artifacts, env.platform);
    var digests := Digests(artifacts);
    if Current(env, cache, t, pc) {
      var v :| v in pc.variants && GatePasses(env.ev, cache, t, pc, v.expectedDigest);
      var i :| 0 <= i < |pc.variants| && pc.variants[i] == v;
      assert digests[i] in digests && digests[i] == v.expectedDigest;
    } else if target.dest in t {
      var found := HexLower(env.h.Of(t[target.dest]));
      forall d | d in digests ensures !EqIgnoreAsciiCase(found, d) {
        var i :| 0 <= i < |digests| && digests[i] == d;
        assert pc.variants[i] in pc.variants;
      }
    }
  }

  /** Present without execution, and never to be updated: the version on offer is empty, or the guard holds it back. */
  predicate HoldsStill(t: Tree, recorded: I.Builds, pc: PlannedComponent) {
    pc.dest in t && !pc.evidence.RequiresExecution() && (pc.version == "" || HeldBack(pc, recorded))
  }

  /** Its set passes the gate now, or it holds still. */
  ghost predicate Skippable(env: PlanEnv, cache: LkgCache, t: Tree, recorded: I.Builds, pc: PlannedComponent) {
    Current(env, cache, t, pc) || HoldsStill(t, recorded, pc)
  }

  /**
   Enumeration and the health gate answer the same question of the whole binary set: a component is
   planned Skip exactly when its set would pass the gate now, or it holds still; and a digest-evidenced
   one only if the digest read worked.
   */
  lemma {:induction false} SkipIffCurrent(env: PlanEnv, cache: LkgCache, c: ManifestComponent, t: Tree,
                                          recorded: I.Builds, readable: bool, pc: PlannedComponent)
    requires cache.h == env.h && LawfulDecide(env.ev)
    requires PlanOne(env, c, t, recorded, readable) == Ok(Planned(pc))
    ensures pc.action == Skip <==>
            Skippable(env, cache, t, recorded, pc) && (readable || pc.evidence.RequiresExecution())
  {
    var target := Target(env.catalog, c.name).value;
    if target.evidence.RequiresExecution() {
      assert pc.variants[0] in pc.variants;
      ProbeGateAgrees(env.ev, cache, t, target, pc, pc.variants[0].expectedDigest);
      forall v | v in pc.variants
        ensures GatePasses(env.ev, cache, t, pc, v.expectedDigest)
           <==> GatePasses(env.ev, cache, t, pc, pc.variants[0].expectedDigest)
      {}
    } else if readable {
      DigestGateAgrees(env, cache, t, target, c, pc);
    }
  }

  /** A binary of the set that is missing or reports another version is always driven again. */
  lemma {:induction false} StaleAliasIsRedriven(env: PlanEnv, c: ManifestComponent, t: Tree, recorded: I.Builds,
                                                readable: bool, pc: PlannedComponent, m: Path)
    requires LawfulDecide(env.ev) && PlanOne(env, c, t, recorded, readable) == Ok(Planned(pc))
    requires pc.evidence.RequiresExecution() && m in pc.Binaries() && !Healthy(env.ev, t, m, pc.version)
    ensures pc.action != Skip
  {
    assert m == pc.dest || m in pc.aliases;
  }

  // ---------------------------------------------------------------- planning the same manifest again

  /** The two entries declare the same component; action and installed build may differ. */
  predicate SameDeclaration(a: PlannedComponent, b: PlannedComponent) {
    a == b.(action := a.action, installedBuild := a.installedBuild)
  }

  /** The gate and the guard look at the declaration only, not at the planned action or the build found before. */
  lemma {:induction false} SkippableIsOfTheDeclaration(env: PlanEnv, cache: LkgCache, t: Tree, recorded: I.Builds,
                                                       a: PlannedComponent, b: PlannedComponent)
    requires SameDeclaration(a, b)
    ensures Skippable(env, cache, t, recorded, a) <==> Skippable(env, cache, t, recorded, b)
  {
    assert a.Binaries() == b.Binaries() && a.variants == b.variants;
    forall v | v in a.variants
      ensures GatePasses(env.ev, cache, t, a, v.expectedDigest) <==> GatePasses(env.ev, cache, t, b, v.expectedDigest)
    {}
  }

  /** A gate verdict depends on the set's bytes alone. */
  lemma {:induction false} GateIsStable(ev: Evidence, cache: LkgCache, t0: Tree, t1: Tree, pc: PlannedComponent,
                                        digest: string)
    requires SetAsBefore(t0, t1, pc.Binaries())
    ensures GatePasses(ev, cache, t0, pc, digest) <==> GatePasses(ev, cache, t1, pc, digest)
  {
    assert pc.dest == pc.Binaries()[0] && pc.dest in pc.Binaries();
  }

  /** So does being current. */
  lemma {:induction false} CurrentIsStable(env: PlanEnv, cache: LkgCache, t0: Tree, t1: Tree, pc: PlannedComponent)
    requires SetAsBefore(t0, t1, pc.Binaries())
    ensures Current(env, cache, t0, pc) <==> Current(env, cache, t1, pc)
    ensures pc.dest in t0 <==> pc.dest in t1
  {
    assert pc.dest == pc.Binaries()[0] && pc.dest in pc.Binaries();
    forall v | v in pc.variants
      ensures GatePasses(env.ev, cache, t0, pc, v.expectedDigest) <==>
                GatePasses(env.ev, cache, t1, pc, v.expectedDigest)
    {
      GateIsStable(env.ev, cache, t0, t1, pc, v.expectedDigest);
    }
  }

  /** The same component again, skipped exactly when it is skippable on the disk of the second plan. */
  ghost predicate AgainAs(env: PlanEnv, cache: LkgCache, t: Tree, recorded: I.Builds, a: PlannedComponent,
                          b: PlannedComponent) {
    SameDeclaration(a, b) && (b.action == Skip <==> Skippable(env, cache, t, recorded, a))
  }

  /** The same entry again. */
  ghost predicate EntryAgain(env: PlanEnv, cache: LkgCache, t: Tree, recorded: I.Builds, e: Entry, f: Entry) {
    match e
    case Ignored => f.Ignored?
    case HeldEntry(_) => f == e
    case Planned(pc) => f.Planned? && AgainAs(env, cache, t, recorded, pc, f.pc)
  }

  /** The same holds, the same components in order, each skipped exactly when it is skippable. */
  ghost predicate PlannedAgain(env: PlanEnv, cache: LkgCache, t: Tree, recorded: I.Builds, first: PlanOfPass,
                               again: PlanOfPass) {
    && again.held == first.held && |again.components| == |first.components|
    && forall i :: 0 <= i < |first.components| ==>
         AgainAs(env, cache, t, recorded, first.components[i], again.components[i])
  }

  predicate AllSkipped(plan: PlanOfPass) {
    forall pc :: pc in plan.components ==> pc.action == Skip
  }

  /** What was planned once plans again, whatever has happened since, unless packing an answered version panics. */
  lemma {:induction false} ReplanEntry(env: PlanEnv, cache: LkgCache, c: ManifestComponent, t0: Tree, rec0: I.Builds,
                                       readable: bool, t1: Tree, rec1: I.Builds)
    requires cache.h == env.h && LawfulDecide(env.ev) && PlanOne(env, c, t0, rec0, readable).Ok?
    ensures var again := PlanOne(env, c, t1, rec1, true);
            if again.Ok? then EntryAgain(env, cache, t1, rec1, PlanOne(env, c, t0, rec0, readable).value, again.value)
            else again.error == Panicked
  {
    var e, again := PlanOne(env, c, t0, rec0, readable).value, PlanOne(env, c, t1, rec1, true);
    if again.Ok? && e.Planned? {
      SkipIffCurrent(env, cache, c, t1, rec1, true, again.value.pc);
      SkippableIsOfTheDeclaration(env, cache, t1, rec1, e.pc, again.value.pc);
    }
  }

  lemma {:induction false} ExtendedAgain(env: PlanEnv, cache: LkgCache, t: Tree, recorded: I.Builds, a: PlanOfPass,
                                         b: PlanOfPass, e: Entry, f: Entry)
    requires PlannedAgain(env, cache, t, recorded, a, b) && EntryAgain(env, cache, t, recorded, e, f)
    ensures PlannedAgain(env, cache, t, recorded, Extend(a, e), Extend(b, f))
  {}

  /** All digest reads work. */
  function AllReadable(n: nat): (r: seq<bool>)
    ensures |r| == n && forall i :: 0 <= i < n ==> r[i]
  {
    seq(n, _ => true)
  }

  /**
   Planning the same manifest again with working digest reads, on whatever disk and record and whichever
   reads worked the first time: it fails exactly when some component's version panics the packing, and
   otherwise holds the same ones and plans the same ones, Skip exactly for those that are skippable now.
   */
  lemma {:induction false} ReplanSkipsExactly(env: PlanEnv, cache: LkgCache, cs: seq<ManifestComponent>, t0: Tree,
                                              rec0: I.Builds, readable: seq<bool>, t1: Tree, rec1: I.Builds, n: nat)
    requires n <= |cs| && n <= |readable| && cache.h == env.h && LawfulDecide(env.ev)
    requires PlanOf(env, cs, t0, rec0, readable, n).Ok?
    ensures var first, again := PlanOf(env, cs, t0, rec0, readable, n), PlanOf(env, cs, t1, rec1, AllReadable(|cs|), n);
            && (again.Err? <==> exists c :: c in cs[..n] && PlanOne(env, c, t1, rec1, true) == Err(Panicked))
            && (again.Ok? ==> PlannedAgain(env, cache, t1, rec1, first.value, again.value))
    decreases n
  {
    if n > 0 {
      var c := cs[n - 1];
      assert cs[..n] == cs[..n - 1] + [c];
      var entry := PlanOne(env, c, t0, rec0, readable[n - 1]).value;
      var before := PlanOf(env, cs, t0, rec0, readable, n - 1).value;
      var again := PlanOf(env, cs, t1, rec1, AllReadable(|cs|), n - 1);
      ReplanSkipsExactly(env, cache, cs, t0, rec0, readable, t1, rec1, n - 1);
      ReplanEntry(env, cache, c, t0, rec0, readable[n - 1], t1, rec1);
      var next := PlanOne(env, c, t1, rec1, true);
      if again.Ok? && next.Ok? {
        ExtendedAgain(env, cache, t1, rec1, before, again.value, entry, next.value);
      }
    }
  }

  /** The plan of one more component, taken apart. */
  lemma {:induction false} PlanStep(env: PlanEnv, cs: seq<ManifestComponent>, t: Tree, recorded: I.Builds,
                                    readable: seq<bool>, n: nat)
    requires 0 < n <= |cs| && n <= |readable| && PlanOf(env, cs, t, recorded, readable, n).Ok?
    ensures PlanOf(env, cs, t, recorded, readable, n - 1).Ok?
    ensures PlanOne(env, cs[n - 1], t, recorded, readable[n - 1]).Ok?
    ensures PlanOf(env, cs, t, recorded, readable, n).value ==
            Extend(PlanOf(env, cs, t, recorded, readable, n - 1).value,
                   PlanOne(env, cs[n - 1], t, recorded, readable[n - 1]).value)
  {}

  /** What one planned component was planned from: some manifest component, and whether its digest read worked. */
  lemma {:induction false} PlannedFrom(env: PlanEnv, cs: seq<ManifestComponent>, t: Tree, recorded: I.Builds,
                                       readable: seq<bool>, n: nat, pc: PlannedComponent)
    returns (i: nat)
    requires n <= |cs| && n <= |readable| && PlanOf(env, cs, t, recorded, readable, n).Ok?
    requires pc in PlanOf(env, cs, t, recorded, readable, n).value.components
    ensures i < n && PlanOne(env, cs[i], t, recorded, readable[i]) == Ok(Planned(pc))
    decreases n
  {
    PlanStep(env, cs, t, recorded, readable, n);
    var e := PlanOne(env, cs[n - 1], t, recorded, readable[n - 1]).value;
    if e == Planned(pc) {
      i := n - 1;
    } else {
      i := PlannedFrom(env, cs, t, recorded, readable, n - 1, pc);
    }
  }

  // ---------------------------------------------------------------- digest evidence and the backwards guard

  /**
   A digest-evidenced component with an older build on offer is acted on exactly when the guard is blind:
   the digest read failed, so it reads as not installed, or the build record could not be read.
   */
  lemma {:induction false} DowngradeIffGuardIsBlind(env: PlanEnv, cache: LkgCache, c: ManifestComponent, t: Tree,
                                                    recorded: I.Builds, readable: bool, loaded: bool,
                                                    pc: PlannedComponent)
    requires cache.h == env.h && LawfulDecide(env.ev)
    requires PlanOne(env, c, t, if loaded then recorded else map[], readable) == Ok(Planned(pc))
    requires !pc.evidence.RequiresExecution() && pc.dest in t && !Current(env, cache, t, pc)
    requires I.BuildOf(recorded, c.name).Some? && c.build < I.BuildOf(recorded, c.name).value
    ensures pc.action != Skip <==> !readable || (!loaded && c.version != "")
  {
    SkipIffCurrent(env, cache, c, t, if loaded then recorded else map[], readable, pc);
  }

  /** With both reads working, an outdated one is acted on exactly when no newer build is recorded for it. */
  lemma {:induction false} OutdatedIsActedOnIff(env: PlanEnv, cache: LkgCache, c: ManifestComponent, t: Tree,
                                                recorded: I.Builds, pc: PlannedComponent)
    requires cache.h == env.h && LawfulDecide(env.ev) && PlanOne(env, c, t, recorded, true) == Ok(Planned(pc))
    requires !pc.evidence.RequiresExecution() && pc.dest in t && !Current(env, cache, t, pc) && c.version != ""
    ensures pc.action != Skip <==>
            I.BuildOf(recorded, c.name).None? || I.BuildOf(recorded, c.name).value <= c.build
  {
    SkipIffCurrent(env, cache, c, t, recorded, true, pc);
  }

  lemma {:induction false} ActionableDigestHasNoBuild(env: PlanEnv, c: ManifestComponent, t: Tree, recorded: I.Builds,
                                                      readable: bool, pc: PlannedComponent)
    requires LawfulDecide(env.ev) && PlanOne(env, c, t, recorded, readable) == Ok(Planned(pc))
    requires !pc.evidence.RequiresExecution() && pc.action != Skip
    ensures pc.installedBuild == None
  {
    assert V.InstalledBuildOf("") == V.Unageable;
  }

  /** An actionable digest-evidenced component has no build a rollback could record or vouch for. */
  lemma {:induction false} ActionableDigestIsUnageable(env: PlanEnv, c: ManifestComponent, t: Tree, recorded: I.Builds,
                                                       readable: bool, pc: PlannedComponent)
    requires LawfulDecide(env.ev) && PlanOne(env, c, t, recorded, readable) == Ok(Planned(pc))
    requires !pc.evidence.RequiresExecution() && pc.action != Skip
    ensures pc.installedBuild == None
    ensures forall cache: LkgCache, key, b, floor ::
              !FloorAllows(EntryFor(cache, key, pc.dest, pc.installedBuild, b), floor, CrossPass)
  {
    ActionableDigestHasNoBuild(env, c, t, recorded, readable, pc);
  }
}
