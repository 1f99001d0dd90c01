/** Properties of whole passes and of runs of them, over the turns a pass takes. */
module Runs {
  import opened Files
  import opened Components
  import opened Install
  import opened Rollback
  import opened Persist
  import I = Installed
  import opened Health
  import opened Pass
  import opened Apply
  import opened Plan
  import opened Broker

  // ---------------------------------------------------------------- what a turn does to the record

  /** The build recorded for a component, if any. */
  function RecordedFor(inst: Installer, t: Tree, name: string): Option<nat> {
    I.BuildOf(I.LoadedBuilds(inst.records, t), name)
  }

  /** The turn makes a record step, and the write in it works. */
  predicate Writes(inst: Installer, t: Turn) {
    inst.Remembered(t.result) && Publishes(inst.disk.answers, t.recordAt + 1)
  }

  /** The turn writes the record without having been able to read it. */
  predicate Empties(inst: Installer, t: Turn) {
    Writes(inst, t) && !Reply(inst.disk.answers, t.recordAt).Go?
  }

  /**
   What a turn leaves recorded, told by its result and the schedule from its record step on: its own
   component's entry becomes the build it left exactly when the write works, and every other entry is lost
   exactly when the write works and the read before it did not.
   */
  lemma {:induction false} TurnOnTheRecord(inst: Installer, t: Turn, name: string)
    requires I.LawfulBuilds(inst.records.codec) && TurnEnd(inst, t)
    ensures RecordedFor(inst, t.after, name) ==
            if Writes(inst, t) && name == t.pc.name then inst.BuildAfter(t.pc, t.result.value)
            else if Empties(inst, t) then None
            else RecordedFor(inst, t.before, name)
  {
    if t.pc.action != Skip && Writes(inst, t) {
      I.RecordingByTheSchedule(inst.records, t.before, t.after, inst.disk.answers, t.recordAt, t.pc.name,
                               inst.BuildAfter(t.pc, t.result.value));
    }
  }

  /**
   After a rolled-back update of a digest-evidenced component, under any faults, a build is recorded for it
   exactly when one was before and the record is not written: the feed was overridden, or one of the three
   primitives of the write does not work. It is never the build that was put back.
   */
  lemma {:induction false} RecordSurvivesRollbackIff(inst: Installer, env: PlanEnv, c: ManifestComponent, planned: Tree,
                                                     recorded: I.Builds, readable: bool, t: Turn)
    requires I.LawfulBuilds(inst.records.codec) && LawfulDecide(env.ev)
    requires PlanOne(env, c, planned, recorded, readable) == Ok(Planned(t.pc)) && !t.pc.evidence.RequiresExecution()
    requires TurnEnd(inst, t) && t.result == Ok(RolledBack)
    ensures RecordedFor(inst, t.after, t.pc.name).Some? <==>
            && RecordedFor(inst, t.before, t.pc.name).Some?
            && (inst.suppressStateAdvance || !Publishes(inst.disk.answers, t.recordAt + 1))
  {
    ActionableDigestHasNoBuild(env, c, planned, recorded, readable, t.pc);
    TurnOnTheRecord(inst, t, t.pc.name);
  }

  /** Both faults do happen: a record of two components, one of them updated with the read or the write refused. */
  lemma {:induction false} RecordFaultsDoHappen(store: I.InstalledBuildStore, o: Tree, after: Tree)
    requires I.LawfulBuilds(store.codec) && I.LoadedBuilds(store, o) == map["dig-app" := 3, "dig-chat" := 7]
    ensures I.RecordedFrom(store, o, after, [Refuse], 0, "dig-chat", Some(8)) ==>
              I.LoadedBuilds(store, after) == map["dig-chat" := 8]
    ensures I.RecordedFrom(store, o, after, [Go, Go, Refuse], 0, "dig-app", Some(5)) ==>
              I.LoadedBuilds(store, after) == map["dig-app" := 3, "dig-chat" := 7]
  {
    assert I.WithBuild(map[], "dig-chat", Some(8)) == map["dig-chat" := 8];
  }

  // ---------------------------------------------------------------- what a pass leaves alone

  /** The components share no name and no file. */
  ghost predicate Apart(a: PlannedComponent, b: PlannedComponent) {
    a.name != b.name && forall m :: m in a.Binaries() ==> m !in Footprint(b.Binaries())
  }

  ghost predicate AllApart(plan: seq<PlannedComponent>) {
    forall i, j :: 0 <= i < |plan| && 0 <= j < |plan| && i != j ==> Apart(plan[i], plan[j])
  }

  lemma {:induction false} SetTransitive(a: Tree, b: Tree, c: Tree, members: seq<Path>)
    requires SetAsBefore(a, b, members) && SetAsBefore(b, c, members)
    ensures SetAsBefore(a, c, members)
  {
    forall m | m in members ensures SameAt(a, c, m) {
      assert SameAt(a, b, m) && SameAt(b, c, m);
    }
  }

  /** The state advance touches no component's binaries. */
  lemma {:induction false} AdvanceLeavesAlone(inst: Installer, pc: PlannedComponent, a: Tree, b: Tree)
    requires inst.Applicable(pc) && OnlyOwnState(inst, a, b)
    ensures SetAsBefore(a, b, pc.Binaries())
  {}

  /** Another component's turn leaves this one's binaries alone, whatever fails in it. */
  lemma {:induction false} OtherTurnLeavesAlone(inst: Installer, pc: PlannedComponent, t: Turn)
    requires inst.Configured() && inst.Applicable(pc) && TurnEnd(inst, t) && Apart(pc, t.pc)
    requires Confined(inst.disk.foreign, t.pc, inst.Own())
    ensures SetAsBefore(t.before, t.after, pc.Binaries())
  {
    if t.pc.action != Skip {
      forall m | m in pc.Binaries() ensures SameAt(t.before, t.after, m) {
        assert Elsewhere(t.pc, inst.Own(), m);
      }
    }
  }

  /** Turns that ended as promised, of components this host can apply, each keeping to its own. */
  ghost predicate Kept(inst: Installer, turns: seq<Turn>) {
    forall t :: t in turns ==>
        TurnEnd(inst, t) && inst.Applicable(t.pc) && Confined(inst.disk.foreign, t.pc, inst.Own())
  }

  /** The turns follow each other, between them only the channel's own state file changing. */
  ghost predicate Linked(inst: Installer, turns: seq<Turn>, start: Tree, end: Tree) {
    && turns != [] && OnlyOwnState(inst, start, turns[0].before) && OnlyOwnState(inst, turns[|turns| - 1].after, end)
    && forall i :: 0 <= i < |turns| - 1 ==> OnlyOwnState(inst, turns[i].after, turns[i + 1].before)
  }

  ghost predicate Sequence(inst: Installer, turns: seq<Turn>, start: Tree, end: Tree) {
    inst.Configured() && Kept(inst, turns) && Linked(inst, turns, start, end) && AllApart(Planneds(turns))
  }

  /** Every turn but number `i`, and every gap between turns, leaves `members` alone. */
  ghost predicate Spared(turns: seq<Turn>, start: Tree, end: Tree, members: seq<Path>, i: nat) {
    && turns != [] && SetAsBefore(start, turns[0].before, members)
    && SetAsBefore(turns[|turns| - 1].after, end, members)
    && (forall k :: 0 <= k < |turns| - 1 ==> SetAsBefore(turns[k].after, turns[k + 1].before, members))
    && forall k :: 0 <= k < |turns| && k != i ==> SetAsBefore(turns[k].before, turns[k].after, members)
  }

  lemma {:induction false} SequenceSpares(inst: Installer, turns: seq<Turn>, start: Tree, end: Tree, i: nat)
    requires Sequence(inst, turns, start, end) && i < |turns|
    ensures Spared(turns, start, end, turns[i].pc.Binaries(), i)
  {
    var pc := turns[i].pc;
    assert turns[i] in turns;
    AdvanceLeavesAlone(inst, pc, start, turns[0].before);
    AdvanceLeavesAlone(inst, pc, turns[|turns| - 1].after, end);
    forall k | 0 <= k < |turns| - 1 ensures SetAsBefore(turns[k].after, turns[k + 1].before, pc.Binaries()) {
      AdvanceLeavesAlone(inst, pc, turns[k].after, turns[k + 1].before);
    }
    forall k | 0 <= k < |turns| && k != i ensures SetAsBefore(turns[k].before, turns[k].after, pc.Binaries()) {
      assert turns[k] in turns && Apart(Planneds(turns)[i], Planneds(turns)[k]);
      OtherTurnLeavesAlone(inst, pc, turns[k]);
    }
  }

  lemma {:induction false} SparedBefore(turns: seq<Turn>, start: Tree, end: Tree, members: seq<Path>, i: nat, j: nat)
    requires Spared(turns, start, end, members, i) && j <= i < |turns|
    ensures SetAsBefore(start, turns[j].before, members)
    decreases j
  {
    if j > 0 {
      SparedBefore(turns, start, end, members, i, j - 1);
      SetTransitive(start, turns[j - 1].before, turns[j - 1].after, members);
      SetTransitive(start, turns[j - 1].after, turns[j].before, members);
    }
  }

  lemma {:induction false} SparedAfter(turns: seq<Turn>, start: Tree, end: Tree, members: seq<Path>, i: nat, j: nat)
    requires Spared(turns, start, end, members, i) && i <= j < |turns|
    ensures SetAsBefore(turns[j].after, end, members)
    decreases |turns| - j
  {
    if j < |turns| - 1 {
      SparedAfter(turns, start, end, members, i, j + 1);
      SetTransitive(turns[j].after, turns[j + 1].before, turns[j + 1].after, members);
      SetTransitive(turns[j].after, turns[j + 1].after, end, members);
    }
  }

  /** The turn keeps what is recorded for `name`, or empties the record. */
  ghost predicate KeptOrEmptied(inst: Installer, t: Turn, name: string) {
    RecordedFor(inst, t.after, name) == if Empties(inst, t) then None else RecordedFor(inst, t.before, name)
  }

  /** Every gap between turns keeps what is recorded for `name`, and every turn but number `i` keeps or empties it. */
  ghost predicate RecordSpared(inst: Installer, turns: seq<Turn>, start: Tree, end: Tree, name: string, i: nat) {
    && turns != [] && RecordedFor(inst, start, name) == RecordedFor(inst, turns[0].before, name)
    && RecordedFor(inst, turns[|turns| - 1].after, name) == RecordedFor(inst, end, name)
    && (forall k :: 0 <= k < |turns| - 1 ==>
          RecordedFor(inst, turns[k].after, name) == RecordedFor(inst, turns[k + 1].before, name))
    && forall k :: 0 <= k < |turns| && k != i ==> KeptOrEmptied(inst, turns[k], name)
  }

  lemma {:induction false} AdvanceKeepsRecord(inst: Installer, a: Tree, b: Tree, name: string)
    requires inst.Configured() && OnlyOwnState(inst, a, b)
    ensures RecordedFor(inst, a, name) == RecordedFor(inst, b, name)
  {
    I.BuildsFileIsNoTrustFile(inst.stateDir, inst.channel, inst.channel);
    assert inst.records.path.ext == Some("json") && |JSON_TMP_EXT| == 8 && |"json"| == 4;
    assert SameAt(a, b, inst.records.path);
  }

  lemma {:induction false} SequenceSparesRecord(inst: Installer, turns: seq<Turn>, start: Tree, end: Tree, i: nat)
    requires Sequence(inst, turns, start, end) && I.LawfulBuilds(inst.records.codec) && i < |turns|
    ensures RecordSpared(inst, turns, start, end, turns[i].pc.name, i)
  {
    var name := turns[i].pc.name;
    AdvanceKeepsRecord(inst, start, turns[0].before, name);
    AdvanceKeepsRecord(inst, turns[|turns| - 1].after, end, name);
    forall k | 0 <= k < |turns| - 1
      ensures RecordedFor(inst, turns[k].after, name) == RecordedFor(inst, turns[k + 1].before, name)
    {
      AdvanceKeepsRecord(inst, turns[k].after, turns[k + 1].before, name);
    }
    forall k | 0 <= k < |turns| && k != i ensures KeptOrEmptied(inst, turns[k], name) {
      assert turns[k] in turns && Apart(Planneds(turns)[i], Planneds(turns)[k]);
      TurnOnTheRecord(inst, turns[k], name);
    }
  }

  /** Some turn from number `a` up to number `b` empties the record. */
  ghost predicate SomeEmpties(inst: Installer, turns: seq<Turn>, a: nat, b: nat)
    requires a <= b <= |turns|
  {
    exists k :: a <= k < b && Empties(inst, turns[k])
  }

  /** What is recorded for a component when turn `j` begins, up to its own turn `i`. */
  lemma {:induction false} RecordBefore(inst: Installer, turns: seq<Turn>, start: Tree, end: Tree, name: string, i: nat,
                                        j: nat)
    requires RecordSpared(inst, turns, start, end, name, i) && j <= i < |turns|
    ensures RecordedFor(inst, turns[j].before, name) ==
            if SomeEmpties(inst, turns, 0, j) then None else RecordedFor(inst, start, name)
    decreases j
  {
    if j > 0 {
      RecordBefore(inst, turns, start, end, name, i, j - 1);
      assert KeptOrEmptied(inst, turns[j - 1], name);
      assert SomeEmpties(inst, turns, 0, j) <==> SomeEmpties(inst, turns, 0, j - 1) || Empties(inst, turns[j - 1]);
    }
  }

  /** What is recorded for it at the end, told from any turn from its own on. */
  lemma {:induction false} RecordAfter(inst: Installer, turns: seq<Turn>, start: Tree, end: Tree, name: string, i: nat,
                                       j: nat)
    requires RecordSpared(inst, turns, start, end, name, i) && i <= j < |turns|
    ensures RecordedFor(inst, end, name) ==
            if SomeEmpties(inst, turns, j + 1, |turns|) then None else RecordedFor(inst, turns[j].after, name)
    decreases |turns| - j
  {
    if j < |turns| - 1 {
      RecordAfter(inst, turns, start, end, name, i, j + 1);
      assert KeptOrEmptied(inst, turns[j + 1], name);
      assert SomeEmpties(inst, turns, j + 1, |turns|) <==>
             SomeEmpties(inst, turns, j + 2, |turns|) || Empties(inst, turns[j + 1]);
    }
  }

  /** Planned Skip although its set would not pass the gate, on the strength of its record alone. */
  ghost predicate HeldByRecord(inst: Installer, env: PlanEnv, start: Tree, pc: PlannedComponent) {
    pc.action == Skip && pc.version != "" && !Current(env, inst.cache, start, pc)
  }

  /** It was skipped on the strength of its record, and a turn of the pass wrote the record after failing to read it. */
  ghost predicate Lapses(inst: Installer, env: PlanEnv, turns: seq<Turn>, start: Tree, pc: PlannedComponent) {
    HeldByRecord(inst, env, start, pc) && SomeEmpties(inst, turns, 0, |turns|)
  }

  lemma {:induction false} RecordOfASkipped(inst: Installer, turns: seq<Turn>, start: Tree, end: Tree, i: nat)
    requires Sequence(inst, turns, start, end) && I.LawfulBuilds(inst.records.codec)
    requires i < |turns| && turns[i].pc.action == Skip
    ensures RecordedFor(inst, end, turns[i].pc.name) ==
            if SomeEmpties(inst, turns, 0, |turns|) then None else RecordedFor(inst, start, turns[i].pc.name)
  {
    var name := turns[i].pc.name;
    assert turns[i] in turns && TurnEnd(inst, turns[i]);
    SequenceSparesRecord(inst, turns, start, end, i);
    RecordBefore(inst, turns, start, end, name, i, i);
    RecordAfter(inst, turns, start, end, name, i, i);
    assert SomeEmpties(inst, turns, 0, |turns|) <==>
           SomeEmpties(inst, turns, 0, i) || SomeEmpties(inst, turns, i + 1, |turns|);
  }

  lemma {:induction false} SkippedSettles(inst: Installer, env: PlanEnv, recorded: I.Builds, turns: seq<Turn>,
                                          start: Tree, end: Tree, pc: PlannedComponent)
    requires pc.action == Skip && SetAsBefore(start, end, pc.Binaries())
    requires RecordedFor(inst, end, pc.name) ==
             if SomeEmpties(inst, turns, 0, |turns|) then None else RecordedFor(inst, start, pc.name)
    requires Skippable(env, inst.cache, start, recorded, pc)
    requires recorded == I.LoadedBuilds(inst.records, start) || recorded == map[]
    ensures Skippable(env, inst.cache, end, I.LoadedBuilds(inst.records, end), pc) <==>
            !Lapses(inst, env, turns, start, pc)
  {
    CurrentIsStable(env, inst.cache, start, end, pc);
  }

  /**
   A component that ended installed or skipped would be skipped again when the whole pass is over, other
   turns and state advance included and whatever failed in them, exactly unless its record lapsed.
   */
  lemma {:induction false} SettledAtTheEnd(inst: Installer, env: PlanEnv, recorded: I.Builds, turns: seq<Turn>,
                                           start: Tree, end: Tree, i: nat)
    requires Sequence(inst, turns, start, end) && I.LawfulBuilds(inst.records.codec) && i < |turns| && env.ev == inst.ev
    requires turns[i].result in {Ok(Skipped), Ok(ComponentResult.Installed)}
    requires recorded == I.LoadedBuilds(inst.records, start) || recorded == map[]
    requires turns[i].pc.action == Skip ==> Skippable(env, inst.cache, start, recorded, turns[i].pc)
    ensures Skippable(env, inst.cache, end, I.LoadedBuilds(inst.records, end), turns[i].pc) <==>
            !Lapses(inst, env, turns, start, turns[i].pc)
  {
    var t, pc, set_ := turns[i], turns[i].pc, turns[i].pc.Binaries();
    assert t in turns;
    SequenceSpares(inst, turns, start, end, i);
    SparedAfter(turns, start, end, set_, i, i);
    if pc.action == Skip {
      SparedBefore(turns, start, end, set_, i, i);
      SetTransitive(start, t.before, end, set_);
      RecordOfASkipped(inst, turns, start, end, i);
      SkippedSettles(inst, env, recorded, turns, start, end, pc);
    } else {
      InstalledIsCurrent(inst, env, t);
      CurrentIsStable(env, inst.cache, t.after, end, pc);
    }
  }

  lemma {:induction false} InstalledIsCurrent(inst: Installer, env: PlanEnv, t: Turn)
    requires env.ev == inst.ev && TurnEnd(inst, t) && t.pc.action != Skip
    requires t.result in {Ok(Skipped), Ok(ComponentResult.Installed)}
    ensures Current(env, inst.cache, t.after, t.pc)
  {
    assert inst.ComponentTurn(t.pc, t.step, t.before, t.after, t.calls, t.at, t.recordAt, t.result);
  }

  // ---------------------------------------------------------------- the plan/apply fixed point

  /** None of `a`'s binaries is a file of `b`'s or one of its working files. */
  ghost predicate TargetApart(a: ComponentTarget, b: ComponentTarget) {
    forall m :: m in a.Binaries() ==> m !in Footprint(b.Binaries())
  }

  ghost predicate CatalogApart(catalog: Plan.Catalog) {
    forall j, k :: 0 <= j < |catalog| && 0 <= k < |catalog| && j != k ==> TargetApart(catalog[j], catalog[k])
  }

  /** Every component names itself once in the manifest. */
  predicate NamedOnce(cs: seq<ManifestComponent>) {
    forall i, j :: 0 <= i < j < |cs| ==> cs[i].name != cs[j].name
  }

  lemma {:induction false} PlannedHasATarget(env: PlanEnv, t: Tree, recorded: I.Builds, c: ManifestComponent,
                                             readable: bool, pc: PlannedComponent)
    returns (k: nat)
    requires PlanOne(env, c, t, recorded, readable) == Ok(Planned(pc))
    ensures k < |env.catalog| && env.catalog[k].name == c.name && pc.name == c.name
    ensures pc.Binaries() == env.catalog[k].Binaries()
  {
    k :| 0 <= k < |env.catalog| && env.catalog[k] == Target(env.catalog, c.name).value;
  }

  /** Two components planned under different names from a catalog whose targets are apart are apart. */
  lemma {:induction false} PlannedAreApart(env: PlanEnv, t: Tree, recorded: I.Builds, a: ManifestComponent, readA: bool,
                                           pa: PlannedComponent, b: ManifestComponent, readB: bool,
                                           pb: PlannedComponent)
    requires CatalogApart(env.catalog) && a.name != b.name
    requires PlanOne(env, a, t, recorded, readA) == Ok(Planned(pa))
    requires PlanOne(env, b, t, recorded, readB) == Ok(Planned(pb))
    ensures Apart(pa, pb) && Apart(pb, pa)
  {
    var j := PlannedHasATarget(env, t, recorded, a, readA, pa);
    var k := PlannedHasATarget(env, t, recorded, b, readB, pb);
    assert TargetApart(env.catalog[j], env.catalog[k]) && TargetApart(env.catalog[k], env.catalog[j]);
  }

  lemma {:induction false} NextIsApart(env: PlanEnv, cs: seq<ManifestComponent>, t: Tree, recorded: I.Builds,
                                       readable: seq<bool>, n: nat, next: PlannedComponent, pc: PlannedComponent)
    requires n < |cs| && n < |readable| && CatalogApart(env.catalog) && NamedOnce(cs)
    requires PlanOne(env, cs[n], t, recorded, readable[n]) == Ok(Planned(next))
    requires PlanOf(env, cs, t, recorded, readable, n).Ok?
    requires pc in PlanOf(env, cs, t, recorded, readable, n).value.components
    ensures Apart(pc, next) && Apart(next, pc)
  {
    var i := PlannedFrom(env, cs, t, recorded, readable, n, pc);
    PlannedAreApart(env, t, recorded, cs[i], readable[i], pc, cs[n], readable[n], next);
  }

  lemma {:induction false} ApartGrows(plan: seq<PlannedComponent>, next: PlannedComponent)
    requires AllApart(plan) && forall pc :: pc in plan ==> Apart(pc, next) && Apart(next, pc)
    ensures AllApart(plan + [next])
  {}

  /** What a manifest that names each component once plans from a catalog whose targets are apart is apart. */
  lemma {:induction false} PlanIsApart(env: PlanEnv, cs: seq<ManifestComponent>, t: Tree, recorded: I.Builds,
                                       readable: seq<bool>, n: nat)
    requires n <= |cs| && n <= |readable| && CatalogApart(env.catalog) && NamedOnce(cs)
    requires PlanOf(env, cs, t, recorded, readable, n).Ok?
    ensures AllApart(PlanOf(env, cs, t, recorded, readable, n).value.components)
    decreases n
  {
    if n > 0 {
      PlanStep(env, cs, t, recorded, readable, n);
      PlanIsApart(env, cs, t, recorded, readable, n - 1);
      var before := PlanOf(env, cs, t, recorded, readable, n - 1).value.components;
      var e := PlanOne(env, cs[n - 1], t, recorded, readable[n - 1]).value;
      if e.Planned? {
        forall pc | pc in before ensures Apart(pc, e.pc) && Apart(e.pc, pc) {
          NextIsApart(env, cs, t, recorded, readable, n - 1, e.pc, pc);
        }
        ApartGrows(before, e.pc);
      }
    }
  }

  /** The turns of a finished pass, the beacon's own last. */
  function AllTurns(h: PassHistory): seq<Turn> {
    h.turns + if h.own.Some? then [h.own.value] else []
  }

  lemma {:induction false} OthersAreApart(plan: seq<PlannedComponent>)
    requires AllApart(plan)
    ensures AllApart(Others(plan)) && forall pc :: pc in Others(plan) ==> pc in plan && !IsSelf(pc)
  {
    if plan != [] {
      var n := |plan| - 1;
      OthersAreApart(plan[..n]);
      forall pc | pc in Others(plan[..n]) ensures Apart(pc, plan[n]) && Apart(plan[n], pc) {
        var k :| 0 <= k < n && plan[k] == pc;
      }
    }
  }

  /** With names apart, the beacon has one entry, and it is the one set aside. */
  lemma {:induction false} OnlySelf(plan: seq<PlannedComponent>, pc: PlannedComponent)
    requires AllApart(plan) && pc in plan && IsSelf(pc)
    ensures SelfOf(plan) == Some(pc)
  {
    var n := |plan| - 1;
    if pc != plan[n] {
      var k :| 0 <= k < n && plan[k] == pc;
      assert Apart(plan[k], plan[n]);
      OnlySelf(plan[..n], pc);
    }
  }

  lemma {:induction false} NotSetAside(plan: seq<PlannedComponent>, pc: PlannedComponent)
    requires pc in plan && !IsSelf(pc)
    ensures pc in Others(plan)
  {
    if pc != plan[|plan| - 1] { NotSetAside(plan[..|plan| - 1], pc); }
  }

  /** Every planned component took a turn. */
  lemma {:induction false} TurnOf(inst: Installer, env: PlanEnv, cs: seq<ManifestComponent>, h: PassHistory, end: Tree,
                                  pc: PlannedComponent)
    returns (i: nat)
    requires PassDone(inst, env, cs, h, end) && AllApart(h.plan.components) && pc in h.plan.components
    ensures i < |AllTurns(h)| && AllTurns(h)[i].pc == pc
  {
    if IsSelf(pc) {
      OnlySelf(h.plan.components, pc);
      i := |h.turns|;
    } else {
      NotSetAside(h.plan.components, pc);
      i :| 0 <= i < |h.turns| && Planneds(h.turns)[i] == pc;
    }
  }

  lemma {:induction false} TurnsAreApart(plan: seq<PlannedComponent>, h: PassHistory)
    requires AllApart(plan) && Planneds(h.turns) == Others(plan)
    requires h.own.Some? ==> Some(h.own.value.pc) == SelfOf(plan)
    ensures AllApart(Planneds(AllTurns(h))) && forall t :: t in AllTurns(h) ==> t.pc in plan
  {
    OthersAreApart(plan);
    forall i | 0 <= i < |h.turns| ensures h.turns[i].pc in plan && !IsSelf(h.turns[i].pc) {
      assert Planneds(h.turns)[i] in Others(plan);
    }
    if h.own.Some? {
      var k :| 0 <= k < |plan| && plan[k] == h.own.value.pc;
      forall i | 0 <= i < |h.turns| ensures Apart(h.turns[i].pc, plan[k]) && Apart(plan[k], h.turns[i].pc) {
        var l :| 0 <= l < |plan| && plan[l] == h.turns[i].pc;
      }
    }
    var all := Planneds(AllTurns(h));
    forall i, j | 0 <= i < |all| && 0 <= j < |all| && i != j ensures Apart(all[i], all[j]) {
      if i < |h.turns| && j < |h.turns| { assert Apart(Others(plan)[i], Others(plan)[j]); }
    }
  }

  lemma {:induction false} TurnsAreLinked(inst: Installer, h: PassHistory, end: Tree)
    requires Chained(h.turns, h.start, LastTree(h.turns, h.start)) && AllTurns(h) != []
    requires Finished(inst, h.plan, h.turns, h.own, h.start, end)
    ensures Linked(inst, AllTurns(h), h.start, end)
  {
    var all := AllTurns(h);
    forall i | 0 <= i < |all| - 1 ensures OnlyOwnState(inst, all[i].after, all[i + 1].before) {
      if i + 1 < |h.turns| { assert h.turns[i + 1].before == h.turns[i].after; }
    }
  }

  lemma {:induction false} PassIsASequence(inst: Installer, env: PlanEnv, cs: seq<ManifestComponent>, h: PassHistory,
                                           end: Tree)
    requires inst.Configured() && PassDone(inst, env, cs, h, end) && AllTurns(h) != []
    requires AllApart(h.plan.components)
    requires forall pc :: pc in h.plan.components ==> Confined(inst.disk.foreign, pc, inst.Own())
    ensures Sequence(inst, AllTurns(h), h.start, end)
  {
    TurnsAreApart(h.plan.components, h);
    TurnsAreLinked(inst, h, end);
  }

  /**
   The plan/apply fixed point, under every fault schedule. After a pass in which every component ended
   installed or skipped, with sets apart and installers that keep to their own, planning the same manifest
   again fails exactly when packing an answered version panics; otherwise it holds and plans the same
   components, and skips every one of them but those whose record lapsed.
   */
  lemma {:induction false} PassReachesAFixedPoint(inst: Installer, env: PlanEnv, cs: seq<ManifestComponent>,
                                                  h: PassHistory, end: Tree)
    requires inst.Configured() && I.LawfulBuilds(inst.records.codec) && LawfulDecide(env.ev)
    requires env.ev == inst.ev && env.h == inst.cache.h && PassDone(inst, env, cs, h, end)
    requires forall t :: t in AllTurns(h) ==> t.result in {Ok(Skipped), Ok(ComponentResult.Installed)}
    requires AllApart(h.plan.components)
    requires forall pc :: pc in h.plan.components ==> Confined(inst.disk.foreign, pc, inst.Own())
    ensures var known := I.LoadedBuilds(inst.records, end);
            var again := PlanOf(env, cs, end, known, AllReadable(|cs|), |cs|);
            && (again.Err? <==> exists c :: c in cs && PlanOne(env, c, end, known, true) == Err(Panicked))
            && (again.Ok? ==> SkipsBut(inst, env, h, again.value))
  {
    var known := I.LoadedBuilds(inst.records, end);
    var again := PlanOf(env, cs, end, known, AllReadable(|cs|), |cs|);
    assert cs[..|cs|] == cs;
    ReplanSkipsExactly(env, inst.cache, cs, h.start, h.recorded, h.readable, end, known, |cs|);
    if AllTurns(h) != [] { PassIsASequence(inst, env, cs, h, end); }
    forall pc | pc in h.plan.components
      ensures Skippable(env, inst.cache, end, known, pc) <==> !Lapses(inst, env, AllTurns(h), h.start, pc)
    {
      PlannedSettles(inst, env, cs, h, end, pc);
    }
    if again.Ok? { SkippedAgain(inst, env, end, known, h, again.value); }
  }

  lemma {:induction false} SkippedAgain(inst: Installer, env: PlanEnv, end: Tree, known: I.Builds, h: PassHistory,
                                        again: PlanOfPass)
    requires PlannedAgain(env, inst.cache, end, known, h.plan, again)
    requires forall pc :: pc in h.plan.components ==>
               (Skippable(env, inst.cache, end, known, pc) <==> !Lapses(inst, env, AllTurns(h), h.start, pc))
    ensures SkipsBut(inst, env, h, again)
  {
    forall i | 0 <= i < |again.components|
      ensures again.components[i].action == Skip <==>
              !Lapses(inst, env, AllTurns(h), h.start, h.plan.components[i])
    {
      assert h.plan.components[i] in h.plan.components;
      assert AgainAs(env, inst.cache, end, known, h.plan.components[i], again.components[i]);
    }
  }

  /** The same holds and the same components, all of them skipped but those whose record lapsed in the pass. */
  ghost predicate SkipsBut(inst: Installer, env: PlanEnv, h: PassHistory, again: PlanOfPass) {
    && again.held == h.plan.held && |again.components| == |h.plan.components|
    && forall i :: 0 <= i < |again.components| ==>
         && SameDeclaration(h.plan.components[i], again.components[i])
         && (again.components[i].action == Skip <==> !Lapses(inst, env, AllTurns(h), h.start, h.plan.components[i]))
  }

  lemma {:induction false} PlannedSettles(inst: Installer, env: PlanEnv, cs: seq<ManifestComponent>, h: PassHistory,
                                          end: Tree, pc: PlannedComponent)
    requires I.LawfulBuilds(inst.records.codec) && LawfulDecide(env.ev) && env.ev == inst.ev && env.h == inst.cache.h
    requires PassDone(inst, env, cs, h, end) && AllApart(h.plan.components) && pc in h.plan.components
    requires AllTurns(h) != [] ==> Sequence(inst, AllTurns(h), h.start, end)
    requires forall t :: t in AllTurns(h) ==> t.result in {Ok(Skipped), Ok(ComponentResult.Installed)}
    ensures Skippable(env, inst.cache, end, I.LoadedBuilds(inst.records, end), pc) <==>
            !Lapses(inst, env, AllTurns(h), h.start, pc)
  {
    var i := TurnOf(inst, env, cs, h, end, pc);
    var from := PlannedFrom(env, cs, h.start, h.recorded, h.readable, |cs|, pc);
    SkipIffCurrent(env, inst.cache, cs[from], h.start, h.recorded, h.readable[from], pc);
    assert AllTurns(h)[i] in AllTurns(h);
    SettledAtTheEnd(inst, env, h.recorded, AllTurns(h), h.start, end, i);
  }

  /** So on a quiet disk the fixed point is complete: the next plan skips everything. */
  lemma {:induction false} QuietPassSkipsAll(inst: Installer, env: PlanEnv, cs: seq<ManifestComponent>, h: PassHistory,
                                             end: Tree)
    requires inst.Configured() && I.LawfulBuilds(inst.records.codec) && LawfulDecide(env.ev)
    requires env.ev == inst.ev && env.h == inst.cache.h && PassDone(inst, env, cs, h, end)
    requires forall t :: t in AllTurns(h) ==> t.result in {Ok(Skipped), Ok(ComponentResult.Installed)}
    requires AllApart(h.plan.components) && Quiet(inst.disk.answers)
    requires forall pc :: pc in h.plan.components ==> Confined(inst.disk.foreign, pc, inst.Own())
    ensures var again := PlanOf(env, cs, end, I.LoadedBuilds(inst.records, end), AllReadable(|cs|), |cs|);
            again.Ok? ==> AllSkipped(again.value)
  {
    PassReachesAFixedPoint(inst, env, cs, h, end);
  }
}
