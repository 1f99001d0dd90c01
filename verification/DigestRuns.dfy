/**
 A component told by its digest and never run, over many passes: what keeps its build from going back, and
 exactly when it goes back.
 */
module DigestRuns {
  import opened Files
  import opened Hashing
  import opened Components
  import opened Install
  import opened Rollback
  import opened Persist
  import I = Installed
  import V = Version
  import opened Health
  import opened Pass
  import opened Apply
  import opened Plan
  import opened Broker
  import opened Runs

  // ---------------------------------------------------------------- one pass, as the component sees it

  /** One pass as a digest-evidenced component sees it: what was planned, its turn, and the disk around it. */
  datatype DigestPass = DigestPass(env: PlanEnv, c: ManifestComponent, start: Tree, turn: Turn, end: Tree)

  /** Neither the component's binaries nor its recorded build changed. */
  ghost predicate Undisturbed(inst: Installer, pc: PlannedComponent, a: Tree, b: Tree) {
    SetAsBefore(a, b, pc.Binaries()) && RecordedFor(inst, a, pc.name) == RecordedFor(inst, b, pc.name)
  }

  /** A pass whose digest read and record read worked and in which the component was not rolled back. */
  ghost predicate GuardedDigestPass(inst: Installer, p: DigestPass) {
    var pc, records := p.turn.pc, inst.records;
    && p.env.ev == inst.ev && p.env.h == inst.cache.h
    && PlanOne(p.env, p.c, p.start, I.LoadedBuilds(records, p.start), true) == Ok(Planned(pc))
    && !pc.evidence.RequiresExecution() && pc.method_.RawBinary? && p.turn.step.Generic?
    && Undisturbed(inst, pc, p.start, p.turn.before) && TurnEnd(inst, p.turn)
    && Undisturbed(inst, pc, p.turn.after, p.end)
    && p.turn.result.Ok? && p.turn.result != Ok(RolledBack)
  }

  /** If the pass installed, its record write works: the feed is the tracked one, and the schedule lets it through. */
  predicate RecordWritten(inst: Installer, p: DigestPass) {
    p.turn.result == Ok(ComponentResult.Installed) ==> Writes(inst, p.turn)
  }

  /** An ordinary pass: its reads worked, and its record write if it made one. The feed may offer any build. */
  ghost predicate OrdinaryDigestPass(inst: Installer, p: DigestPass) {
    GuardedDigestPass(inst, p) && RecordWritten(inst, p)
  }

  /** The build on disk after a pass that found `k` there. */
  function BuildNow(p: DigestPass, k: nat): nat {
    if p.turn.result == Ok(ComponentResult.Installed) then p.turn.pc.build else k
  }

  ghost predicate Recorded(inst: Installer, t: Tree, target: PlannedComponent, k: nat) {
    target.dest in t && RecordedFor(inst, t, target.name) == Some(k)
  }

  /** With both reads working, a digest-evidenced component is never planned below its recorded build. */
  lemma {:induction false} GuardHolds(env: PlanEnv, cache: LkgCache, c: ManifestComponent, t: Tree, recorded: I.Builds,
                                      pc: PlannedComponent, k: nat)
    requires LawfulDecide(env.ev) && cache.h == env.h && PlanOne(env, c, t, recorded, true) == Ok(Planned(pc))
    requires !pc.evidence.RequiresExecution() && pc.dest in t && I.BuildOf(recorded, pc.name) == Some(k)
    requires pc.action != Skip
    ensures k <= pc.build && pc.aliases == []
  {
    SkipIffCurrent(env, cache, c, t, recorded, true, pc);
  }

  /** The destination after a pass: signed content of the build it installed, or what was there before. */
  ghost predicate DestOrigin(inst: Installer, p: DigestPass) {
    var dest := p.turn.pc.dest;
    if p.turn.result == Ok(ComponentResult.Installed) then
      dest in p.end && SignedBytes(inst.cache.h, p.turn.pc, p.end[dest])
    else SameAt(p.start, p.end, dest)
  }

  lemma {:induction false} DigestPassOrigin(inst: Installer, p: DigestPass)
    requires inst.Configured() && inst.Applicable(p.turn.pc) && GuardedDigestPass(inst, p)
    requires p.turn.pc.action != Skip ==> p.turn.pc.aliases == []
    ensures DestOrigin(inst, p)
  {
    var t, pc := p.turn, p.turn.pc;
    DestOf(pc, p.start, t.before);
    DestOf(pc, t.after, p.end);
    if pc.action != Skip {
      if t.result == Ok(ComponentResult.Installed) {
        InstalledIsSigned(inst, t);
      } else {
        NotInstalledMeansUntouched(inst, t);
        DestOf(pc, t.before, t.after);
      }
    }
  }

  /** One pass never lowers the installed build, and leaves the record equal to it. */
  lemma {:induction false} DigestPassIsMonotone(inst: Installer, p: DigestPass, k: nat)
    requires LawfulDecide(inst.ev) && I.LawfulBuilds(inst.records.codec) && inst.Configured()
    requires inst.Applicable(p.turn.pc)
    requires OrdinaryDigestPass(inst, p) && Recorded(inst, p.start, p.turn.pc, k)
    ensures k <= BuildNow(p, k) && Recorded(inst, p.end, p.turn.pc, BuildNow(p, k)) && DestOrigin(inst, p)
  {
    var t, pc := p.turn, p.turn.pc;
    if pc.action != Skip {
      GuardHolds(p.env, inst.cache, p.c, p.start, I.LoadedBuilds(inst.records, p.start), pc, k);
      if t.result == Ok(ComponentResult.Installed) {
        TurnOnTheRecord(inst, t, pc.name);
      } else {
        NotInstalledMeansUntouched(inst, t);
      }
    }
    DigestPassOrigin(inst, p);
  }

  /** A pass that installed but whose record write failed leaves its build under the older record. */
  lemma {:induction false} UnwrittenRecordStaysOld(inst: Installer, p: DigestPass, k: nat)
    requires LawfulDecide(inst.ev) && I.LawfulBuilds(inst.records.codec) && inst.Configured()
    requires inst.Applicable(p.turn.pc)
    requires GuardedDigestPass(inst, p) && Recorded(inst, p.start, p.turn.pc, k)
    requires p.turn.result == Ok(ComponentResult.Installed) && !RecordWritten(inst, p)
    ensures k <= p.turn.pc.build && DestOrigin(inst, p) && Recorded(inst, p.end, p.turn.pc, k)
  {
    GuardHolds(p.env, inst.cache, p.c, p.start, I.LoadedBuilds(inst.records, p.start), p.turn.pc, k);
    DigestPassOrigin(inst, p);
    TurnOnTheRecord(inst, p.turn, p.turn.pc.name);
  }

  lemma {:induction false} ActedOnFromTheRecord(inst: Installer, env: PlanEnv, c: ManifestComponent, t: Tree,
                                                next: PlannedComponent, like: PlannedComponent, k: nat)
    requires LawfulDecide(inst.ev) && env.ev == inst.ev && env.h == inst.cache.h && c.version != ""
    requires PlanOne(env, c, t, I.LoadedBuilds(inst.records, t), true) == Ok(Planned(next))
    requires !next.evidence.RequiresExecution() && !Current(env, inst.cache, t, next)
    requires Recorded(inst, t, like, k) && next.name == like.name && next.dest == like.dest
    ensures next.action != Skip <==> k <= c.build
  {
    OutdatedIsActedOnIff(env, inst.cache, c, t, I.LoadedBuilds(inst.records, t), next);
  }

  /**
   After such a pass, with both reads working, the next plan acts on an outdated binary exactly when the
   build on offer is at least the recorded one: any build from the recorded one up to the installed one is
   taken, backwards.
   */
  lemma {:induction false} UnwrittenRecordAdmitsDowngrade(inst: Installer, p: DigestPass, k: nat, env: PlanEnv,
                                                          c: ManifestComponent, next: PlannedComponent)
    requires LawfulDecide(inst.ev) && I.LawfulBuilds(inst.records.codec) && inst.Configured()
    requires inst.Applicable(p.turn.pc)
    requires GuardedDigestPass(inst, p) && Recorded(inst, p.start, p.turn.pc, k)
    requires p.turn.result == Ok(ComponentResult.Installed) && !RecordWritten(inst, p)
    requires env.ev == inst.ev && env.h == inst.cache.h && c.version != "" && !next.evidence.RequiresExecution()
    requires PlanOne(env, c, p.end, I.LoadedBuilds(inst.records, p.end), true) == Ok(Planned(next))
    requires next.name == p.turn.pc.name && next.dest == p.turn.pc.dest && !Current(env, inst.cache, p.end, next)
    ensures next.action != Skip && c.build < p.turn.pc.build <==> k <= c.build < p.turn.pc.build
  {
    UnwrittenRecordStaysOld(inst, p, k);
    ActedOnFromTheRecord(inst, env, c, p.end, next, p.turn.pc, k);
  }

  /** A host with one digest-evidenced component, and a decision that compares versions. */
  function OneComponentHost(h: HashFn, dest: Path): PlanEnv {
    var decide := (d: DetectedVersion, v: string) =>
      match d case Absent => Install case Present(raw) => if raw == v then Skip else Update;
    PlanEnv(Evidence(_ => Absent, decide), h,
            [ComponentTarget("dig-app", RawBinary, dest, [], None, ArtifactDigest)], Platform("linux", "x86_64"),
            [StagedArtifact("dig-app", "linux", "x86_64", None)])
  }

  /** Build 4 is on offer, and no content has its digest. */
  const OFFER_OF_FOUR := ManifestComponent("dig-app", "4.0.0", 4, [Artifact("linux", "x86_64", "", None)])

  /** What the offer is planned as on disk `t`. */
  function PlannedAction(h: HashFn, dest: Path, t: Tree, recorded: I.Builds, readable: bool): Option<UpdateAction> {
    var entry := PlanOne(OneComponentHost(h, dest), OFFER_OF_FOUR, t, recorded, readable);
    if entry.Ok? && entry.value.Planned? then Some(entry.value.pc.action) else None
  }

  lemma {:induction false} OfferIsPlanned(h: HashFn, dest: Path, t: Tree, recorded: I.Builds, readable: bool)
    requires dest in t
    ensures PlannedAction(h, dest, t, recorded, readable) ==
            Some(if readable then GuardNewerInstalled(Update, I.BuildOf(recorded, "dig-app"), 4) else Install)
  {
    var env := OneComponentHost(h, dest);
    assert env.Staged("dig-app", OFFER_OF_FOUR.artifacts[0]) by { assert env.staged[0] in env.staged; }
    assert ArtifactsFor(OFFER_OF_FOUR.artifacts, env.platform) == OFFER_OF_FOUR.artifacts;
    assert V.InstalledBuildOf("") == V.Unageable;
  }

  /**
   With build 5 recorded an offer of build 4 is skipped, until the digest read or the record read fails; and
   with build 3 left recorded under an installed build 5 it is taken although both reads work.
   */
  lemma {:induction false} DowngradesDoHappen(h: HashFn, dest: Path, t: Tree)
    requires dest in t
    ensures LawfulDecide(OneComponentHost(h, dest).ev)
    ensures PlannedAction(h, dest, t, map["dig-app" := 5], true) == Some(Skip)
    ensures PlannedAction(h, dest, t, map["dig-app" := 5], false) == Some(Install)
    ensures PlannedAction(h, dest, t, map[], true) == Some(Update)
    ensures PlannedAction(h, dest, t, map["dig-app" := 3], true) == Some(Update)
  {
    forall recorded, readable | recorded in {map["dig-app" := 5], map["dig-app" := 3], map[]}
      ensures PlannedAction(h, dest, t, recorded, readable) ==
              Some(if readable then GuardNewerInstalled(Update, I.BuildOf(recorded, "dig-app"), 4) else Install)
    {
      OfferIsPlanned(h, dest, t, recorded, readable);
    }
  }

  lemma {:induction false} DestOf(pc: PlannedComponent, a: Tree, b: Tree)
    requires SetAsBefore(a, b, pc.Binaries())
    ensures SameAt(a, b, pc.dest)
  {
    assert pc.dest == pc.Binaries()[0] && pc.dest in pc.Binaries();
  }

  lemma {:induction false} InstalledIsSigned(inst: Installer, t: Turn)
    requires inst.ComponentTurn(t.pc, t.step, t.before, t.after, t.calls, t.at, t.recordAt, t.result)
    requires t.pc.method_.RawBinary? && t.result == Ok(ComponentResult.Installed)
    ensures t.pc.dest in t.after && SignedBytes(inst.cache.h, t.pc, t.after[t.pc.dest])
  {
    var v :| v in t.pc.variants && HoldsVariant(inst.cache.h, t.pc, t.step, t.after, v);
  }

  /** A raw component without aliases is untouched by any turn that neither installed nor rolled it back. */
  lemma {:induction false} NotInstalledMeansUntouched(inst: Installer, t: Turn)
    requires inst.Configured() && inst.Applicable(t.pc) && t.pc.method_.RawBinary? && t.pc.aliases == []
    requires inst.ComponentTurn(t.pc, t.step, t.before, t.after, t.calls, t.at, t.recordAt, t.result)
    requires t.result.Ok? && t.result.value !in {ComponentResult.Installed, RolledBack}
    ensures Undisturbed(inst, t.pc, t.before, t.after)
  {
    assert t.pc.Binaries() == [t.pc.dest];
    inst.PrivateIsPrivate(t.pc);
    assert SameAt(t.before, t.after, inst.records.path);
  }

  // ---------------------------------------------------------------- a finished pass is one of these

  /** A finished pass, and which manifest component `m` and which turn `i` of it are the component's. */
  datatype ComponentPass = ComponentPass(env: PlanEnv, cs: seq<ManifestComponent>, h: PassHistory, end: Tree, m: nat,
                                         i: nat)
  {
    /** The pass as the component sees it. */
    function Seen(): DigestPass
      requires m < |cs| && i < |h.turns|
    {
      DigestPass(env, cs[m], h.start, h.turns[i], end)
    }
  }

  /** The pass ran to its end, planned the component on digest evidence, and gave it a turn. */
  ghost predicate PassOf(inst: Installer, p: ComponentPass) {
    && p.env.ev == inst.ev && p.env.h == inst.cache.h && PassDone(inst, p.env, p.cs, p.h, p.end)
    && AllApart(p.h.plan.components)
    && (forall pc :: pc in p.h.plan.components ==> Confined(inst.disk.foreign, pc, inst.Own()))
    && p.m < |p.cs| && p.i < |p.h.turns|
    && PlanOne(p.env, p.cs[p.m], p.h.start, p.h.recorded, p.h.readable[p.m]) == Ok(Planned(p.h.turns[p.i].pc))
    && !p.h.turns[p.i].pc.evidence.RequiresExecution() && p.h.turns[p.i].pc.method_.RawBinary?
  }

  /**
   One of those whose reads both worked, in which the component was not rolled back, and in which no other
   component's turn wrote the record after failing to read it.
   */
  ghost predicate Guarded(inst: Installer, p: ComponentPass) {
    && PassOf(inst, p) && p.h.readable[p.m] && Reply(inst.disk.answers, p.h.readAt).Go?
    && p.h.turns[p.i].result.Ok? && p.h.turns[p.i].result != Ok(RolledBack)
    && forall k :: 0 <= k < |AllTurns(p.h)| && k != p.i ==> !Empties(inst, AllTurns(p.h)[k])
  }

  /** Such a pass leaves the component alone outside its own turn. */
  lemma {:induction false} OthersDoNotDisturb(inst: Installer, turns: seq<Turn>, start: Tree, end: Tree, i: nat)
    requires Sequence(inst, turns, start, end) && I.LawfulBuilds(inst.records.codec) && i < |turns|
    requires forall k :: 0 <= k < |turns| && k != i ==> !Empties(inst, turns[k])
    ensures Undisturbed(inst, turns[i].pc, start, turns[i].before)
    ensures Undisturbed(inst, turns[i].pc, turns[i].after, end)
  {
    SequenceSpares(inst, turns, start, end, i);
    SparedBefore(turns, start, end, turns[i].pc.Binaries(), i, i);
    SparedAfter(turns, start, end, turns[i].pc.Binaries(), i, i);
    SequenceSparesRecord(inst, turns, start, end, i);
    RecordBefore(inst, turns, start, end, turns[i].pc.name, i, i);
    RecordAfter(inst, turns, start, end, turns[i].pc.name, i, i);
  }

  /** A component planned on digest evidence has no second name: one that had would be held. */
  lemma {:induction false} PlannedOnDigestIsAlone(env: PlanEnv, c: ManifestComponent, t: Tree, recorded: I.Builds,
                                                  readable: bool, pc: PlannedComponent)
    requires PlanOne(env, c, t, recorded, readable) == Ok(Planned(pc)) && !pc.evidence.RequiresExecution()
    ensures pc.aliases == []
  {}

  /** What a pass promises of its history makes it a guarded pass of the component. */
  lemma {:induction false} FinishedPassIsGuarded(inst: Installer, p: ComponentPass)
    requires inst.Configured() && I.LawfulBuilds(inst.records.codec) && Guarded(inst, p)
    ensures GuardedDigestPass(inst, p.Seen()) && inst.Applicable(p.h.turns[p.i].pc) && p.h.turns[p.i].pc.aliases == []
  {
    var turns, t := AllTurns(p.h), p.h.turns[p.i];
    assert turns[p.i] == t && t in p.h.turns && t in turns;
    PassIsASequence(inst, p.env, p.cs, p.h, p.end);
    OthersDoNotDisturb(inst, turns, p.h.start, p.end, p.i);
    PlannedOnDigestIsAlone(p.env, p.cs[p.m], p.h.start, p.h.recorded, p.h.readable[p.m], t.pc);
  }

  // ---------------------------------------------------------------- runs of passes

  /** Passes one after another on one channel, with nothing in between touching the component or its record. */
  ghost predicate DigestRun(inst: Installer, run: seq<DigestPass>, like: PlannedComponent) {
    && (forall p :: p in run ==> OrdinaryDigestPass(inst, p) && inst.Applicable(p.turn.pc)
                                 && p.turn.pc.name == like.name && p.turn.pc.dest == like.dest
                                 && p.turn.pc.aliases == [])
    && forall i :: 0 <= i < |run| - 1 ==> Undisturbed(inst, like, run[i].end, run[i + 1].start)
  }

  /** The build on disk when pass `i` starts, if the first one found `k` there. */
  function BuildAt(run: seq<DigestPass>, k: nat, i: nat): nat
    requires i <= |run|
  {
    if i == 0 then k else BuildNow(run[i - 1], BuildAt(run, k, i - 1))
  }

  /** Whatever build the record and the disk agree on before the pass, they agree on one at least as new after it. */
  ghost predicate KeepsRecord(inst: Installer, p: DigestPass, like: PlannedComponent) {
    forall k: nat :: Recorded(inst, p.start, like, k) ==>
        k <= BuildNow(p, k) && Recorded(inst, p.end, like, BuildNow(p, k))
  }

  ghost predicate Carried(inst: Installer, a: Tree, b: Tree, like: PlannedComponent) {
    SameAt(a, b, like.dest) && forall k: nat :: Recorded(inst, a, like, k) ==> Recorded(inst, b, like, k)
  }

  ghost predicate KeepingRun(inst: Installer, run: seq<DigestPass>, like: PlannedComponent) {
    && (forall i :: 0 <= i < |run| ==>
          KeepsRecord(inst, run[i], like) && DestOrigin(inst, run[i]) && run[i].turn.pc.dest == like.dest)
    && (forall i :: 0 <= i < |run| - 1 ==> Carried(inst, run[i].end, run[i + 1].start, like))
  }

  lemma {:induction false} PassKeepsRecord(inst: Installer, p: DigestPass, like: PlannedComponent)
    requires LawfulDecide(inst.ev) && I.LawfulBuilds(inst.records.codec) && inst.Configured()
    requires OrdinaryDigestPass(inst, p) && inst.Applicable(p.turn.pc)
    requires p.turn.pc.name == like.name && p.turn.pc.dest == like.dest
    ensures KeepsRecord(inst, p, like)
  {
    forall k: nat | Recorded(inst, p.start, like, k)
      ensures k <= BuildNow(p, k) && Recorded(inst, p.end, like, BuildNow(p, k))
    {
      DigestPassIsMonotone(inst, p, k);
    }
  }

  lemma {:induction false} DigestRunKeeps(inst: Installer, run: seq<DigestPass>, like: PlannedComponent)
    requires LawfulDecide(inst.ev) && I.LawfulBuilds(inst.records.codec) && inst.Configured()
    requires DigestRun(inst, run, like)
    ensures KeepingRun(inst, run, like)
  {
    forall i | 0 <= i < |run|
      ensures KeepsRecord(inst, run[i], like) && DestOrigin(inst, run[i]) && run[i].turn.pc.dest == like.dest
    {
      assert run[i] in run;
      PassKeepsRecord(inst, run[i], like);
      DigestPassOrigin(inst, run[i]);
    }
    forall i | 0 <= i < |run| - 1 ensures Carried(inst, run[i].end, run[i + 1].start, like) {
      DestOf(like, run[i].end, run[i + 1].start);
    }
  }

  lemma {:induction false} KeepingRunTracks(inst: Installer, run: seq<DigestPass>, like: PlannedComponent, k: nat,
                                            j: nat)
    requires KeepingRun(inst, run, like) && j < |run| && Recorded(inst, run[0].start, like, k)
    ensures Recorded(inst, run[j].start, like, BuildAt(run, k, j))
    ensures Recorded(inst, run[j].end, like, BuildAt(run, k, j + 1))
    ensures BuildAt(run, k, j) <= BuildAt(run, k, j + 1)
    decreases j
  {
    if j > 0 {
      KeepingRunTracks(inst, run, like, k, j - 1);
      assert Carried(inst, run[j - 1].end, run[j].start, like);
    }
    assert KeepsRecord(inst, run[j], like);
  }

  lemma {:induction false} KeepingRunRises(inst: Installer, run: seq<DigestPass>, like: PlannedComponent, k: nat,
                                           i: nat, j: nat)
    requires KeepingRun(inst, run, like) && i <= j <= |run| && (run != [] ==> Recorded(inst, run[0].start, like, k))
    ensures BuildAt(run, k, i) <= BuildAt(run, k, j)
    decreases j
  {
    if i < j {
      KeepingRunRises(inst, run, like, k, i, j - 1);
      KeepingRunTracks(inst, run, like, k, j - 1);
    }
  }

  /** The pass installed build `b`, and the destination holds signed content of it in `t`. */
  ghost predicate InstalledBy(inst: Installer, p: DigestPass, like: PlannedComponent, t: Tree, b: nat) {
    && p.turn.result == Ok(ComponentResult.Installed) && p.turn.pc.build == b
    && like.dest in t && SignedBytes(inst.cache.h, p.turn.pc, t[like.dest])
  }

  /** One of the first `n` passes did. */
  ghost predicate SomeInstalled(inst: Installer, run: seq<DigestPass>, like: PlannedComponent, t: Tree, b: nat, n: nat)
    requires n <= |run|
  {
    exists i :: 0 <= i < n && InstalledBy(inst, run[i], like, t, b)
  }

  /** The tally is the build of the bytes on disk: the first ones, or signed content some pass installed. */
  lemma {:induction false} TallyIsOfTheBytes(inst: Installer, run: seq<DigestPass>, like: PlannedComponent, k: nat,
                                             j: nat)
    requires KeepingRun(inst, run, like) && j < |run|
    ensures || (BuildAt(run, k, j + 1) == k && SameAt(run[0].start, run[j].end, like.dest))
            || SomeInstalled(inst, run, like, run[j].end, BuildAt(run, k, j + 1), j + 1)
    decreases j
  {
    assert DestOrigin(inst, run[j]);
    if run[j].turn.result == Ok(ComponentResult.Installed) {
      assert InstalledBy(inst, run[j], like, run[j].end, BuildAt(run, k, j + 1));
    } else if j > 0 {
      TallyIsOfTheBytes(inst, run, like, k, j - 1);
      assert Carried(inst, run[j - 1].end, run[j].start, like);
      if SomeInstalled(inst, run, like, run[j - 1].end, BuildAt(run, k, j), j) {
        var i :| 0 <= i < j && InstalledBy(inst, run[i], like, run[j - 1].end, BuildAt(run, k, j));
        assert InstalledBy(inst, run[i], like, run[j].end, BuildAt(run, k, j + 1));
      }
    }
  }

  /** Finished passes of one component on one channel, between which nothing touched it or its record. */
  ghost predicate PassRun(inst: Installer, run: seq<ComponentPass>, like: PlannedComponent) {
    && (forall p :: p in run ==> RunMember(inst, p, like))
    && forall i :: 0 <= i < |run| - 1 ==> Undisturbed(inst, like, run[i].end, run[i + 1].h.start)
  }

  /** A guarded pass of the component whose record write, if it made one, works. The feed may offer any build. */
  ghost predicate RunMember(inst: Installer, p: ComponentPass, like: PlannedComponent) {
    && Guarded(inst, p) && RecordWritten(inst, p.Seen())
    && p.h.turns[p.i].pc.name == like.name && p.h.turns[p.i].pc.dest == like.dest
  }

  function SeenBy(run: seq<ComponentPass>): (r: seq<DigestPass>)
    requires forall p :: p in run ==> p.m < |p.cs| && p.i < |p.h.turns|
    ensures |r| == |run| && forall k :: 0 <= k < |r| ==> r[k] == run[k].Seen()
  {
    seq(|run|, k requires 0 <= k < |run| => run[k].Seen())
  }

  /** The build on disk when pass `n` starts, if the first one found `k` there. */
  function BuildBefore(run: seq<ComponentPass>, k: nat, n: nat): nat
    requires n <= |run| && forall p :: p in run ==> p.m < |p.cs| && p.i < |p.h.turns|
  {
    BuildAt(SeenBy(run), k, n)
  }

  lemma {:induction false} PassRunIsADigestRun(inst: Installer, run: seq<ComponentPass>, like: PlannedComponent)
    requires inst.Configured() && I.LawfulBuilds(inst.records.codec) && PassRun(inst, run, like)
    ensures DigestRun(inst, SeenBy(run), like)
  {
    var seen := SeenBy(run);
    forall p | p in seen
      ensures OrdinaryDigestPass(inst, p) && inst.Applicable(p.turn.pc) && p.turn.pc.aliases == []
      ensures p.turn.pc.name == like.name && p.turn.pc.dest == like.dest
    {
      var k :| 0 <= k < |seen| && seen[k] == p;
      assert run[k] in run;
      FinishedPassIsGuarded(inst, run[k]);
    }
  }

  /**
   From a record equal to the build on disk, over any run of finished passes whose reads and record writes
   worked, whatever builds the feed offers and whatever else fails: the installed build never decreases,
   the record always equals it, and it is the build of the bytes on disk, which are the first ones or
   signed content of that build.
   */
  lemma {:induction false} InstalledBuildNeverDecreases(inst: Installer, run: seq<ComponentPass>,
                                                        like: PlannedComponent, k: nat, i: nat, j: nat)
    requires LawfulDecide(inst.ev) && I.LawfulBuilds(inst.records.codec) && inst.Configured()
    requires PassRun(inst, run, like) && i <= j < |run| && Recorded(inst, run[0].h.start, like, k)
    ensures BuildBefore(run, k, i) <= BuildBefore(run, k, j) <= BuildBefore(run, k, j + 1)
    ensures Recorded(inst, run[j].h.start, like, BuildBefore(run, k, j))
    ensures Recorded(inst, run[j].end, like, BuildBefore(run, k, j + 1))
    ensures || (BuildBefore(run, k, j + 1) == k && SameAt(run[0].h.start, run[j].end, like.dest))
            || SomeInstalled(inst, SeenBy(run), like, run[j].end, BuildBefore(run, k, j + 1), j + 1)
  {
    var seen := SeenBy(run);
    PassRunIsADigestRun(inst, run, like);
    DigestRunKeeps(inst, seen, like);
    KeepingRunRises(inst, seen, like, k, i, j);
    KeepingRunTracks(inst, seen, like, k, j);
    TallyIsOfTheBytes(inst, seen, like, k, j);
  }
}
