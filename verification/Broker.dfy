/**
 A whole pass and its driver: every other component first, then the trust-state advance, then the beacon
 itself; and the manual rollback bounded by the tracked channel's persisted floor.
 */
module Broker {
  import opened Files
  import opened Components
  import opened Install
  import opened Rollback
  import opened Persist
  import opened TrustStore
  import I = Installed
  import opened Pass
  import opened Apply
  import opened Plan
  import S = Scheduler

  // ---------------------------------------------------------------- the turns of a pass

  /**
   One planned component's turn: the disk it started from and left, its service calls and the disk at
   each, the primitive its record step began as, its result.
   */
  datatype Turn = Turn(pc: PlannedComponent, step: InstallStep, before: Tree, after: Tree, calls: seq<ServiceEvent>,
                       at: seq<Tree>, recordAt: nat, result: Result<ComponentResult>)

  ghost predicate TurnEnd(inst: Installer, turn: Turn) {
    if turn.pc.action == Skip then turn.result == Ok(Skipped) && turn.after == turn.before && turn.calls == []
    else
      inst.ComponentTurn(turn.pc, turn.step, turn.before, turn.after, turn.calls, turn.at, turn.recordAt, turn.result)
  }

  /** The turns follow each other without a gap, from `start` to `end`. */
  ghost predicate Chained(turns: seq<Turn>, start: Tree, end: Tree) {
    && (turns == [] ==> start == end)
    && (turns != [] ==> turns[0].before == start && turns[|turns| - 1].after == end)
    && forall i :: 0 <= i < |turns| - 1 ==> turns[i + 1].before == turns[i].after
  }

  function AllCalls(turns: seq<Turn>): seq<ServiceEvent> {
    if turns == [] then [] else AllCalls(turns[..|turns| - 1]) + turns[|turns| - 1].calls
  }

  function OwnCalls(own: Option<Turn>): seq<ServiceEvent> { if own.Some? then own.value.calls else [] }

  /** Every actionable component ended installed or refused. */
  predicate AllSettled(turns: seq<Turn>) {
    forall t :: t in turns ==> t.result in {Ok(Skipped), Ok(ComponentResult.Installed), Ok(Refused)}
  }

  /** The beacon's own actionable entry, which is set aside for last. */
  predicate IsSelf(pc: PlannedComponent) { pc.action != Skip && pc.name == BEACON_COMPONENT_NAME }

  function Others(plan: seq<PlannedComponent>): seq<PlannedComponent> {
    if plan == [] then []
    else
      var last := plan[|plan| - 1];
      Others(plan[..|plan| - 1]) + if IsSelf(last) then [] else [last]
  }

  function SelfOf(plan: seq<PlannedComponent>): (r: Option<PlannedComponent>)
    ensures r.Some? ==> r.value in plan && IsSelf(r.value)
  {
    if plan == [] then None
    else if IsSelf(plan[|plan| - 1]) then Some(plan[|plan| - 1])
    else SelfOf(plan[..|plan| - 1])
  }

  function Planneds(turns: seq<Turn>): (r: seq<PlannedComponent>)
    ensures |r| == |turns| && forall i :: 0 <= i < |r| ==> r[i] == turns[i].pc
  {
    seq(|turns|, i requires 0 <= i < |turns| => turns[i].pc)
  }

  datatype Outcome = Outcome(name: string, result: ComponentResult)

  /** What every turn but a failed one reports. */
  function Outcomes(turns: seq<Turn>): (r: seq<Outcome>)
    requires forall t :: t in turns ==> t.result.Ok?
    ensures |r| == |turns| && forall i :: 0 <= i < |r| ==> r[i] == Outcome(turns[i].pc.name, turns[i].result.value)
  {
    seq(|turns|, i requires 0 <= i < |turns| => Outcome(turns[i].pc.name, turns[i].result.value))
  }

  /** The turns of the components other than the beacon, each ended as promised. */
  ghost predicate Each(inst: Installer, turns: seq<Turn>) {
    forall t :: t in turns ==> TurnEnd(inst, t) && t.step == Generic(inst.trusted)
  }

  /**
   The history of a pass so far: its turns, each ended as promised, and nothing else on disk or in the
   service log.
   */
  ghost predicate History(inst: Installer, turns: seq<Turn>, start: Tree, end: Tree, log0: seq<ServiceEvent>,
                          log: seq<ServiceEvent>) {
    && Chained(turns, start, end) && log == log0 + AllCalls(turns) && Each(inst, turns)
  }

  lemma {:induction false} HistoryGrows(inst: Installer, turns: seq<Turn>, start: Tree, end: Tree,
                                        log0: seq<ServiceEvent>, log: seq<ServiceEvent>, t: Turn)
    requires History(inst, turns, start, end, log0, log) && t.before == end
    requires TurnEnd(inst, t) && t.step == Generic(inst.trusted)
    ensures History(inst, turns + [t], start, t.after, log0, log + t.calls)
  {
    assert (turns + [t])[..|turns|] == turns;
    assert log0 + (AllCalls(turns) + t.calls) == (log0 + AllCalls(turns)) + t.calls;
  }

  // ---------------------------------------------------------------- service bracketing

  /** Every successful stop is answered at once by one start of the same service, and every start answers one. */
  ghost predicate WellBracketed(log: seq<ServiceEvent>) {
    && (forall k :: 0 <= k < |log| && log[k].Stop? && log[k].ok ==>
          k + 1 < |log| && log[k + 1].Start? && log[k + 1].service == log[k].service)
    && (forall k :: 0 <= k < |log| && log[k].Start? ==> k > 0 && log[k - 1] == Stop(log[k].service, true))
  }

  lemma {:induction false} BracketsConcatenate(a: seq<ServiceEvent>, b: seq<ServiceEvent>)
    requires WellBracketed(a) && WellBracketed(b)
    ensures WellBracketed(a + b)
  {
    var log := a + b;
    forall k | 0 <= k < |log| && log[k].Stop? && log[k].ok
      ensures k + 1 < |log| && log[k + 1].Start? && log[k + 1].service == log[k].service
    {
      if k < |a| {
        assert a[k] == log[k] && a[k + 1] == log[k + 1];
      } else {
        assert b[k - |a|] == log[k] && b[k - |a| + 1] == log[k + 1];
      }
    }
    forall k | 0 <= k < |log| && log[k].Start?
      ensures k > 0 && log[k - 1] == Stop(log[k].service, true)
    {
      if k < |a| {
        assert a[k] == log[k] && a[k - 1] == log[k - 1];
      } else {
        assert b[k - |a|] == log[k] && b[k - |a| - 1] == log[k - 1];
      }
    }
  }

  lemma {:induction false} BracketIsBracketed(calls: seq<ServiceEvent>, service: Option<string>)
    requires Bracket(calls, service)
    ensures WellBracketed(calls)
  {}

  lemma {:induction false} TurnIsBracketed(inst: Installer, t: Turn)
    requires TurnEnd(inst, t)
    ensures WellBracketed(t.calls)
  {
    if t.pc.action != Skip { BracketIsBracketed(t.calls, inst.serviceOf(t.pc.name)); }
  }

  /** Over any turns the service log is a sequence of brackets, each closed within its component's turn. */
  lemma {:induction false} TurnsAreBracketed(inst: Installer, turns: seq<Turn>)
    requires forall t :: t in turns ==> TurnEnd(inst, t)
    ensures WellBracketed(AllCalls(turns))
  {
    if turns != [] {
      var last := turns[|turns| - 1];
      TurnsAreBracketed(inst, turns[..|turns| - 1]);
      TurnIsBracketed(inst, last);
      BracketsConcatenate(AllCalls(turns[..|turns| - 1]), last.calls);
    }
  }

  /** The control calls of one pass: each turn's in order, the beacon's own last. */
  function PassCalls(turns: seq<Turn>, own: Option<Turn>): seq<ServiceEvent> { AllCalls(turns) + OwnCalls(own) }

  /** The pass's turns ended as promised, and it added their calls to the log and no others, all bracketed. */
  ghost predicate Served(inst: Installer, turns: seq<Turn>, own: Option<Turn>, log0: seq<ServiceEvent>,
                         log: seq<ServiceEvent>) {
    && Each(inst, turns) && (own.Some? ==> TurnEnd(inst, own.value))
    && log == log0 + PassCalls(turns, own) && WellBracketed(PassCalls(turns, own))
  }

  /** Over a whole pass, the beacon's own turn included and however it ended, the log added is bracketed. */
  lemma {:induction false} PassLogIsBracketed(inst: Installer, turns: seq<Turn>, own: Option<Turn>)
    requires Each(inst, turns) && (own.Some? ==> TurnEnd(inst, own.value))
    ensures WellBracketed(PassCalls(turns, own))
  {
    TurnsAreBracketed(inst, turns);
    if own.Some? { TurnIsBracketed(inst, own.value); }
    BracketsConcatenate(AllCalls(turns), OwnCalls(own));
  }

  lemma {:induction false} OthersServed(inst: Installer, turns: seq<Turn>, log0: seq<ServiceEvent>,
                                        log: seq<ServiceEvent>)
    requires Each(inst, turns) && log == log0 + AllCalls(turns)
    ensures Served(inst, turns, None, log0, log)
  {
    PassLogIsBracketed(inst, turns, None);
    assert PassCalls(turns, None) == AllCalls(turns);
  }

  lemma {:induction false} OwnServed(inst: Installer, turns: seq<Turn>, own: Turn, log0: seq<ServiceEvent>,
                                     log1: seq<ServiceEvent>, log: seq<ServiceEvent>)
    requires Each(inst, turns) && TurnEnd(inst, own) && log1 == log0 + AllCalls(turns) && log == log1 + own.calls
    ensures Served(inst, turns, Some(own), log0, log)
  {
    PassLogIsBracketed(inst, turns, Some(own));
    assert log0 + PassCalls(turns, Some(own)) == (log0 + AllCalls(turns)) + own.calls;
  }

  lemma {:induction false} NothingServed(inst: Installer, log: seq<ServiceEvent>)
    ensures Served(inst, [], None, log, log)
  {}

  // ---------------------------------------------------------------- apply: the components other than the beacon

  datatype Progress = Progress(outcomes: seq<Outcome>, allSucceeded: bool, self: Option<PlannedComponent>)

  /** Step one planned component that is not the beacon's own. */
  method TakeTurn(inst: Installer, pc: PlannedComponent, step: InstallStep, floor: nat)
    returns (r: Result<ComponentResult>, ghost turn: Turn)
    requires inst.disk.Valid() && inst.Configured() && inst.Applicable(pc) && (step.SelfSwap? ==> pc.method_.RawBinary?)
    modifies inst.disk, inst.staging, inst.services
    ensures inst.disk.Valid()
    ensures TrustKept(inst.stateDir, old(inst.disk.files), old(inst.disk.seen), inst.disk.files, inst.disk.seen)
    ensures TurnEnd(inst, turn) && turn.pc == pc && turn.step == step && turn.result == r
    ensures turn.before == old(inst.disk.files) && turn.after == inst.disk.files
    ensures inst.services.log == old(inst.services.log) + turn.calls
    ensures inst.disk.tick == turn.recordAt + inst.RecordTicks(turn.recordAt, r)
    ensures pc.action != Skip ==> r != Ok(Skipped)
  {
    ghost var o, log0, at0 := inst.disk.files, inst.services.log, inst.services.moments;
    if pc.action == Skip {
      r := Ok(Skipped);
      turn := Turn(pc, step, o, o, [], [], inst.disk.tick, r);
      return;
    }
    ghost var staged, recordAt;
    r, staged, recordAt := inst.ApplyComponent(pc, step, floor);
    ghost var log1, at1 := inst.services.log, inst.services.moments;
    turn := Turn(pc, step, o, inst.disk.files, log1[|log0|..], at1[|at0|..], recordAt, r);
  }

  /** What the loop over the plan has built after its first `done` entries. */
  ghost predicate SoFar(plan: seq<PlannedComponent>, done: nat, turns: seq<Turn>, p: Progress)
    requires done <= |plan|
  {
    && (forall t :: t in turns ==> t.result.Ok?) && Planneds(turns) == Others(plan[..done])
    && p == Progress(Outcomes(turns), AllSettled(turns), SelfOf(plan[..done]))
  }

  function Grown(p: Progress, t: Turn): Progress
    requires t.result.Ok?
  {
    Progress(p.outcomes + [Outcome(t.pc.name, t.result.value)],
             p.allSucceeded && t.result.value in {Skipped, ComponentResult.Installed, Refused}, p.self)
  }

  lemma {:induction false} SoFarGrows(plan: seq<PlannedComponent>, i: nat, turns: seq<Turn>, p: Progress, t: Turn)
    requires i < |plan| && SoFar(plan, i, turns, p) && t.pc == plan[i] && t.result.Ok? && !IsSelf(plan[i])
    ensures SoFar(plan, i + 1, turns + [t], Grown(p, t))
  {
    assert plan[..i + 1][..i] == plan[..i] && plan[..i + 1][i] == plan[i];
    var next := turns + [t];
    assert Planneds(next) == Planneds(turns) + [t.pc];
    assert Outcomes(next) == Outcomes(turns) + [Outcome(t.pc.name, t.result.value)];
    assert t in next && forall u :: u in turns ==> u in next;
  }

  lemma {:induction false} SoFarSetsAside(plan: seq<PlannedComponent>, i: nat, turns: seq<Turn>, p: Progress)
    requires i < |plan| && SoFar(plan, i, turns, p) && IsSelf(plan[i])
    ensures SoFar(plan, i + 1, turns, p.(self := Some(plan[i])))
  {
    assert plan[..i + 1][..i] == plan[..i] && plan[..i + 1][i] == plan[i];
  }

  /** A turn appended to the pass so far: the plan's prefix it covers, and (unless it failed) its progress. */
  lemma {:induction false} TurnExtends(plan: seq<PlannedComponent>, i: nat, turns: seq<Turn>, p: Progress, t: Turn)
    requires i < |plan| && SoFar(plan, i, turns, p) && t.pc == plan[i] && !IsSelf(plan[i])
    ensures (turns + [t])[|turns + [t]| - 1] == t
    ensures Planneds(turns + [t]) == Others(plan[..i + 1])
    ensures t.result.Ok? ==> SoFar(plan, i + 1, turns + [t], Grown(p, t))
  {
    assert plan[..i + 1][..i] == plan[..i] && Planneds(turns + [t]) == Planneds(turns) + [t.pc];
    if t.result.Ok? { SoFarGrows(plan, i, turns, p, t); }
  }

  /** The last turn failed with this error. */
  predicate Stopped(turns: seq<Turn>, e: Error) {
    turns != [] && turns[|turns| - 1].result == Err(e)
  }

  /** One turn of the loop: set the beacon aside, or apply the component and fold its result into the progress. */
  method ApplyNext(inst: Installer, plan: seq<PlannedComponent>, i: nat, floor: nat, p: Progress,
                   ghost turns: seq<Turn>, ghost o: Tree, ghost seen0: set<Tree>, ghost log0: seq<ServiceEvent>)
    returns (r: Result<Progress>, ghost more: seq<Turn>)
    requires inst.disk.Valid() && inst.Configured() && i < |plan| && inst.Applicable(plan[i])
    requires TrustKept(inst.stateDir, o, seen0, inst.disk.files, inst.disk.seen)
    requires History(inst, turns, o, inst.disk.files, log0, inst.services.log) && SoFar(plan, i, turns, p)
    modifies inst.disk, inst.staging, inst.services
    ensures inst.disk.Valid() && TrustKept(inst.stateDir, o, seen0, inst.disk.files, inst.disk.seen)
    ensures History(inst, more, o, inst.disk.files, log0, inst.services.log)
    ensures r.Ok? ==> SoFar(plan, i + 1, more, r.value)
    ensures r.Err? ==> Stopped(more, r.error) && Planneds(more) == Others(plan[..i + 1])
  {
    if IsSelf(plan[i]) {
      SoFarSetsAside(plan, i, turns, p);
      r, more := Ok(p.(self := Some(plan[i]))), turns;
      return;
    }
    ghost var seen1, log1 := inst.disk.seen, inst.services.log;
    var result, turn := TakeTurn(inst, plan[i], Generic(inst.trusted), floor);
    HistoryGrows(inst, turns, o, turn.before, log0, log1, turn);
    TrustKeptTransitive(inst.stateDir, o, seen0, turn.before, seen1, turn.after, inst.disk.seen);
    TurnExtends(plan, i, turns, p, turn);
    more := turns + [turn];
    if result.Err? {
      r := Err(result.error);
      return;
    }
    r := Ok(Progress(p.outcomes + [Outcome(plan[i].name, result.value)],
                     p.allSucceeded && result.value in {Skipped, ComponentResult.Installed, Refused}, p.self));
  }

  lemma {:induction false} OthersOfAPrefix(plan: seq<PlannedComponent>, i: nat)
    requires i <= |plan|
    ensures Others(plan[..i]) <= Others(plan)
    decreases |plan|
  {
    if i < |plan| {
      var n := |plan| - 1;
      OthersOfAPrefix(plan[..n], i);
      assert plan[..n][..i] == plan[..i];
    } else {
      assert plan[..i] == plan;
    }
  }

  method ApplyOthers(inst: Installer, plan: seq<PlannedComponent>, floor: nat)
    returns (r: Result<Progress>, ghost turns: seq<Turn>)
    requires inst.disk.Valid() && inst.Configured() && forall pc :: pc in plan ==> inst.Applicable(pc)
    modifies inst.disk, inst.staging, inst.services
    ensures inst.disk.Valid()
    ensures TrustKept(inst.stateDir, old(inst.disk.files), old(inst.disk.seen), inst.disk.files, inst.disk.seen)
    ensures History(inst, turns, old(inst.disk.files), inst.disk.files, old(inst.services.log), inst.services.log)
    ensures r.Ok? ==> SoFar(plan, |plan|, turns, r.value)
    ensures r.Err? ==> Stopped(turns, r.error)
    ensures Planneds(turns) <= Others(plan)
  {
    ghost var o, seen0, log0 := inst.disk.files, inst.disk.seen, inst.services.log;
    r := Ok(Progress([], true, None));
    turns := [];
    var i := 0;
    assert log0 + [] == log0 && plan[..0] == [];
    while i < |plan| && r.Ok?
      invariant 0 <= i <= |plan|
      invariant inst.disk.Valid() && TrustKept(inst.stateDir, o, seen0, inst.disk.files, inst.disk.seen)
      invariant History(inst, turns, o, inst.disk.files, log0, inst.services.log)
      invariant r.Ok? ==> SoFar(plan, i, turns, r.value)
      invariant r.Err? ==> Stopped(turns, r.error) && Planneds(turns) == Others(plan[..i])
      decreases |plan| - i
    {
      r, turns := ApplyNext(inst, plan, i, floor, r.value, turns, o, seen0, log0);
      i := i + 1;
    }
    OthersOfAPrefix(plan, i);
  }

  // ---------------------------------------------------------------- apply: the trust state, then the beacon

  /** Any state so far: of before, with the same trust files, or with this pass's marks published on top of them. */
  ghost predicate TrustOutcome(inst: Installer, m: TrustState, mayAdvance: bool, o: Tree, seen0: set<Tree>, s: Tree) {
    s in seen0 || SameTrust(inst.stateDir, o, s)
    || (mayAdvance && PublishedStep(inst.stateDir, inst.codec, inst.channel, m, o, s))
  }

  function OwnState(inst: Installer): Path { StateFile(inst.stateDir, inst.channel) }

  /** What writing the channel's own state file leaves alone: everything but it and its temporary. */
  ghost predicate OnlyOwnState(inst: Installer, o: Tree, t: Tree) {
    SameOutside(o, t, {OwnState(inst), OwnState(inst).WithExtension(JSON_TMP_EXT)})
  }

  lemma {:induction false} AtomicStateIsTrustStep(inst: Installer, loaded: LoadedState, m: TrustState, o: Tree,
                                                  mid: Tree, s: Tree)
    requires LoadFrom(ForChannel(inst.stateDir, inst.channel, inst.codec), o) == Ok(loaded)
    requires SameTrust(inst.stateDir, o, mid)
    requires AtomicState(mid, s, OwnState(inst), inst.codec.print_(SavedObject(loaded.state.Advance(m), loaded)))
    ensures SameTrust(inst.stateDir, o, s) || PublishedStep(inst.stateDir, inst.codec, inst.channel, m, o, s)
    ensures !SameAt(mid, s, OwnState(inst)) || (OwnState(inst) in s && s[OwnState(inst)] ==
              inst.codec.print_(SavedObject(loaded.state.Advance(m), loaded))) ==>
              PublishedStep(inst.stateDir, inst.codec, inst.channel, m, o, s)
  {
    TrustFilesDiffer(inst.stateDir, Nightly, Stable);
    TrustFilesDiffer(inst.stateDir, Stable, Nightly);
    TrustFilesDiffer(inst.stateDir, inst.channel, inst.channel);
    assert SameAt(mid, s, LegacyFile(inst.stateDir));
    forall other: Channel | other != inst.channel ensures SameAt(mid, s, StateFile(inst.stateDir, other)) {}
  }

  /** Harden the state directory, fold the accepted marks in, and publish. */
  method AdvanceState(inst: Installer, marks: TrustState, loaded: LoadedState, ghost o: Tree) returns (r: Result<()>)
    requires inst.disk.Valid() && LoadFrom(ForChannel(inst.stateDir, inst.channel, inst.codec), o) == Ok(loaded)
    requires SameTrust(inst.stateDir, o, inst.disk.files)
    modifies inst.disk
    ensures inst.disk.Valid() && old(inst.disk.seen) <= inst.disk.seen
    ensures forall s :: s in inst.disk.seen ==>
                          TrustOutcome(inst, marks, true, o, old(inst.disk.seen), s)
    ensures r.Ok? ==> PublishedStep(inst.stateDir, inst.codec, inst.channel, marks, o, inst.disk.files)
    ensures r.Err? ==> SameTrust(inst.stateDir, o, inst.disk.files)
    ensures OnlyOwnState(inst, old(inst.disk.files), inst.disk.files)
    ensures Quiet(inst.disk.answers) ==> r.Ok?
  {
    var ok := inst.disk.Perform();
    if !ok { return Err(Io); }
    ok := inst.disk.Perform();
    if !ok { return Err(Io); }
    ghost var mid := inst.disk.files;
    TrustFilesDiffer(inst.stateDir, inst.channel, inst.channel);
    TrustFilesDiffer(inst.stateDir, Nightly, Stable);
    TrustFilesDiffer(inst.stateDir, Stable, Nightly);
    r := Save(inst.disk, ForChannel(inst.stateDir, inst.channel, inst.codec), loaded.state.Advance(marks), loaded);
    AtomicStateIsTrustStep(inst, loaded, marks, o, mid, inst.disk.files);
    forall s | s in inst.disk.seen && s !in old(inst.disk.seen)
      ensures TrustOutcome(inst, marks, true, o, old(inst.disk.seen), s)
    {
      AtomicStateIsTrustStep(inst, loaded, marks, o, mid, s);
    }
  }

  // ---------------------------------------------------------------- apply: the whole pass

  datatype PassReport = PassReport(components: seq<Outcome>, stateAdvanced: bool)

  function HeldOutcomes(held: seq<string>): (r: seq<Outcome>)
    ensures |r| == |held| && forall i :: 0 <= i < |r| ==> r[i] == Outcome(held[i], ComponentResult.Held)
  {
    seq(|held|, i requires 0 <= i < |held| => Outcome(held[i], ComponentResult.Held))
  }

  /** The marks may move: everything but the beacon settled, on the feed the channel tracks. */
  ghost predicate MayAdvance(inst: Installer, turns: seq<Turn>) {
    AllSettled(turns) && !inst.suppressStateAdvance
  }

  function LastTree(turns: seq<Turn>, start: Tree): Tree {
    if turns == [] then start else turns[|turns| - 1].after
  }

  /** The beacon's own turn comes after the advance, which touched nothing but the channel's own state file. */
  ghost predicate Finished(inst: Installer, plan: PlanOfPass, turns: seq<Turn>, own: Option<Turn>, start: Tree,
                           end: Tree) {
    && (own.None? <==> SelfOf(plan.components).None?)
    && (own.None? ==> OnlyOwnState(inst, LastTree(turns, start), end))
    && (own.Some? ==>
          && TurnEnd(inst, own.value) && own.value.step == SelfSwap && Some(own.value.pc) == SelfOf(plan.components)
          && OnlyOwnState(inst, LastTree(turns, start), own.value.before) && own.value.after == end)
  }

  /** What a report of an applied plan says: every turn, every hold, the beacon, and whether the marks moved. */
  ghost predicate Reported(inst: Installer, plan: PlanOfPass, turns: seq<Turn>, own: Option<Turn>, report: PassReport) {
    && (forall t :: t in turns ==> t.result.Ok?) && (own.Some? ==> own.value.result.Ok?)
    && report.stateAdvanced == MayAdvance(inst, turns)
    && report.components == Outcomes(turns) + HeldOutcomes(plan.held)
                            + if own.Some? then [Outcome(own.value.pc.name, own.value.result.value)] else []
  }

  /** A pass that returned: its marks are published exactly if it says so, and otherwise no trust file changed. */
  ghost predicate Advanced(inst: Installer, m: TrustState, advanced: bool, o: Tree, files: Tree) {
    if advanced then PublishedStep(inst.stateDir, inst.codec, inst.channel, m, o, files)
    else SameTrust(inst.stateDir, o, files)
  }

  /** The disk and its crash points over a pass: trust files as before, or its marks published if they may move. */
  ghost predicate PassTrust(inst: Installer, m: TrustState, may: bool, o: Tree, seen0: set<Tree>, files: Tree,
                            seen: set<Tree>) {
    && seen0 <= seen && TrustOutcome(inst, m, may, o, {}, files)
    && forall s :: s in seen ==> TrustOutcome(inst, m, may, o, seen0, s)
  }

  /** Advance the trust state if everything else settled; the beacon's own fate has no say in it. */
  method Settle(inst: Installer, marks: TrustState, loaded: LoadedState, allSucceeded: bool, ghost turns: seq<Turn>,
                ghost o: Tree, ghost seen0: set<Tree>)
    returns (r: Result<bool>)
    requires inst.disk.Valid() && LoadFrom(ForChannel(inst.stateDir, inst.channel, inst.codec), o) == Ok(loaded)
    requires TrustKept(inst.stateDir, o, seen0, inst.disk.files, inst.disk.seen) && allSucceeded == AllSettled(turns)
    modifies inst.disk
    ensures inst.disk.Valid()
    ensures PassTrust(inst, marks, MayAdvance(inst, turns), o, seen0, inst.disk.files, inst.disk.seen)
    ensures OnlyOwnState(inst, old(inst.disk.files), inst.disk.files)
    ensures r.Ok? ==> r.value == MayAdvance(inst, turns) && Advanced(inst, marks, r.value, o, inst.disk.files)
    ensures r.Err? ==> SameTrust(inst.stateDir, o, inst.disk.files) && !Quiet(inst.disk.answers)
  {
    if allSucceeded && !inst.suppressStateAdvance {
      var advanced := AdvanceState(inst, marks, loaded, o);
      return if advanced.Ok? then Ok(true) else Err(advanced.error);
    }
    r := Ok(false);
  }

  /** A later step that leaves the trust files alone keeps every state so far within the pass's promise. */
  lemma {:induction false} TrustOutcomeStays(inst: Installer, m: TrustState, may: bool, o: Tree, seen0: set<Tree>,
                                             mid: Tree, seen1: set<Tree>, files: Tree, seen2: set<Tree>)
    requires PassTrust(inst, m, may, o, seen0, mid, seen1) && TrustKept(inst.stateDir, mid, seen1, files, seen2)
    ensures PassTrust(inst, m, may, o, seen0, files, seen2)
    ensures forall advanced :: Advanced(inst, m, advanced, o, mid) ==> Advanced(inst, m, advanced, o, files)
  {
    forall s | s == files || (s in seen2 && s !in seen1)
      ensures SameTrust(inst.stateDir, o, mid) ==> SameTrust(inst.stateDir, o, s)
      ensures PublishedStep(inst.stateDir, inst.codec, inst.channel, m, o, mid) ==>
                PublishedStep(inst.stateDir, inst.codec, inst.channel, m, o, s)
    {
      assert SameTrust(inst.stateDir, mid, s);
    }
  }

  /** What leaves the trust files alone gives the pass that follows the same trust to start from. */
  lemma {:induction false} PassTrustFrom(inst: Installer, m: TrustState, may: bool, o: Tree, seen0: set<Tree>,
                                         mid: Tree, seen1: set<Tree>, files: Tree, seen2: set<Tree>)
    requires TrustKept(inst.stateDir, o, seen0, mid, seen1) && PassTrust(inst, m, may, mid, seen1, files, seen2)
    ensures PassTrust(inst, m, may, o, seen0, files, seen2)
    ensures forall advanced :: Advanced(inst, m, advanced, mid, files) ==> Advanced(inst, m, advanced, o, files)
  {
    forall s | SameTrust(inst.stateDir, mid, s) ensures SameTrust(inst.stateDir, o, s) {}
    forall s | PublishedStep(inst.stateDir, inst.codec, inst.channel, m, mid, s)
      ensures PublishedStep(inst.stateDir, inst.codec, inst.channel, m, o, s)
    {}
  }

  /** Every other component, then the trust state. */
  method ApplyAndSettle(inst: Installer, plan: seq<PlannedComponent>, marks: TrustState, loaded: LoadedState)
    returns (r: Result<(Progress, bool)>, ghost turns: seq<Turn>)
    requires inst.disk.Valid() && inst.Configured() && forall pc :: pc in plan ==> inst.Applicable(pc)
    requires LoadFrom(ForChannel(inst.stateDir, inst.channel, inst.codec), inst.disk.files) == Ok(loaded)
    modifies inst.disk, inst.staging, inst.services
    ensures inst.disk.Valid()
    ensures PassTrust(inst, marks, MayAdvance(inst, turns), old(inst.disk.files), old(inst.disk.seen),
                      inst.disk.files, inst.disk.seen)
    ensures History(inst, turns, old(inst.disk.files), LastTree(turns, old(inst.disk.files)), old(inst.services.log),
                    inst.services.log)
    ensures Planneds(turns) <= Others(plan) && (r.Err? && Quiet(inst.disk.answers) ==> Stopped(turns, r.error))
    ensures r.Ok? ==> SoFar(plan, |plan|, turns, r.value.0)
                      && OnlyOwnState(inst, LastTree(turns, old(inst.disk.files)), inst.disk.files)
                      && r.value.1 == MayAdvance(inst, turns)
                      && Advanced(inst, marks, r.value.1, old(inst.disk.files), inst.disk.files)
  {
    ghost var o, seen0 := inst.disk.files, inst.disk.seen;
    var progress, done := ApplyOthers(inst, plan, marks.rollbackFloorBuild);
    turns := done;
    if progress.Err? {
      r := Err(progress.error);
      return;
    }
    var advanced := Settle(inst, marks, loaded, progress.value.allSucceeded, turns, o, seen0);
    r := if advanced.Ok? then Ok((progress.value, advanced.value)) else Err(advanced.error);
  }

  /** Apply a plan: every other component, the trust state, then the beacon itself. */
  method ApplyPlan(inst: Installer, plan: PlanOfPass, marks: TrustState, loaded: LoadedState)
    returns (r: Result<PassReport>, ghost turns: seq<Turn>, ghost own: Option<Turn>)
    requires inst.disk.Valid() && inst.Configured() && forall pc :: pc in plan.components ==> inst.Applicable(pc)
    requires LoadFrom(ForChannel(inst.stateDir, inst.channel, inst.codec), inst.disk.files) == Ok(loaded)
    modifies inst.disk, inst.staging, inst.services
    ensures inst.disk.Valid()
    ensures PassTrust(inst, marks, MayAdvance(inst, turns), old(inst.disk.files), old(inst.disk.seen),
                      inst.disk.files, inst.disk.seen)
    ensures Chained(turns, old(inst.disk.files), LastTree(turns, old(inst.disk.files)))
    ensures Served(inst, turns, own, old(inst.services.log), inst.services.log)
    ensures Planneds(turns) <= Others(plan.components)
    ensures own.Some? ==> own.value.step == SelfSwap && Some(own.value.pc) == SelfOf(plan.components)
    ensures r.Err? && Quiet(inst.disk.answers) ==>
              Stopped(turns, r.error) || (own.Some? && own.value.result == Err(r.error))
    ensures r.Ok? ==> Planneds(turns) == Others(plan.components)
                      && Finished(inst, plan, turns, own, old(inst.disk.files), inst.disk.files)
    ensures r.Ok? ==> Reported(inst, plan, turns, own, r.value)
                      && Advanced(inst, marks, r.value.stateAdvanced, old(inst.disk.files), inst.disk.files)
  {
    own := None;
    ghost var o, seen0, log0 := inst.disk.files, inst.disk.seen, inst.services.log;
    assert plan.components[..|plan.components|] == plan.components;
    var settled, done := ApplyAndSettle(inst, plan.components, marks, loaded);
    turns := done;
    OthersServed(inst, turns, log0, inst.services.log);
    if settled.Err? {
      r := Err(settled.error);
      return;
    }
    var (progress, advanced) := settled.value;
    var components := progress.outcomes + HeldOutcomes(plan.held);
    if progress.self.Some? {
      ghost var mid, seen1, log1 := inst.disk.files, inst.disk.seen, inst.services.log;
      var result, turn := TakeTurn(inst, progress.self.value, SelfSwap, marks.rollbackFloorBuild);
      own := Some(turn);
      TrustOutcomeStays(inst, marks, MayAdvance(inst, turns), o, seen0, mid, seen1, inst.disk.files, inst.disk.seen);
      OwnServed(inst, turns, turn, log0, log1, inst.services.log);
      if result.Err? {
        r := Err(result.error);
        return;
      }
      components := components + [Outcome(progress.self.value.name, result.value)];
    }
    r := Ok(PassReport(components, advanced));
  }

  // ---------------------------------------------------------------- the driver

  /** What the worker reports: a rejected feed, or a verified one with the manifest and what was staged. */
  datatype WorkerReport = Rejected | Verified(manifest: Manifest, staged: seq<StagedArtifact>)

  datatype PassEnd = AlreadyRunning | Paused | NothingToDo | Applied(report: PassReport)

  /**
   What a pass went through: the record it read and when, which digest reads worked, its plan, and its
   turns from `start` on.
   */
  datatype PassHistory = PassHistory(readAt: nat, recorded: I.Builds, readable: seq<bool>, plan: PlanOfPass,
                                     turns: seq<Turn>, own: Option<Turn>, start: Tree)

  /** A pass that planned nothing. */
  function Idle(t: Tree): PassHistory { PassHistory(0, map[], [], PlanOfPass([], []), [], None, t) }

  /** The history of a pass that applied the plan of `cs` and ended on `end`. */
  ghost predicate PassDone(inst: Installer, env: PlanEnv, cs: seq<ManifestComponent>, h: PassHistory, end: Tree) {
    && |h.readable| == |cs| && PlanOf(env, cs, h.start, h.recorded, h.readable, |cs|) == Ok(h.plan)
    && h.recorded == I.FoundBuilds(inst.records, h.start, inst.disk.answers, h.readAt)
    && (Quiet(inst.disk.answers) ==> forall b :: b in h.readable ==> b)
    && (forall pc :: pc in h.plan.components ==> inst.Applicable(pc))
    && Chained(h.turns, h.start, LastTree(h.turns, h.start)) && Each(inst, h.turns)
    && Planneds(h.turns) == Others(h.plan.components) && Finished(inst, h.plan, h.turns, h.own, h.start, end)
  }

  /**
   A catalog target this host can apply: its binaries apart from each other and outside the beacon's own
   directories.
   */
  ghost predicate TargetApplicable(inst: Installer, t: ComponentTarget) {
    && BinarySet(t.Binaries()) && (t.name == BEACON_COMPONENT_NAME ==> t.method_.RawBinary?)
    && forall m :: m in t.Binaries() ==> m.dir !in inst.Own() && m.ext != Some("json")
  }

  lemma {:induction false} PlannedIsApplicable(inst: Installer, env: PlanEnv, cs: seq<ManifestComponent>, t: Tree,
                                               recorded: I.Builds, readable: seq<bool>, n: nat)
    requires n <= |cs| && n <= |readable| && PlanOf(env, cs, t, recorded, readable, n).Ok?
    requires forall target :: target in env.catalog ==> TargetApplicable(inst, target)
    ensures forall pc :: pc in PlanOf(env, cs, t, recorded, readable, n).value.components ==> inst.Applicable(pc)
    decreases n
  {
    if n > 0 {
      PlanStep(env, cs, t, recorded, readable, n);
      PlannedIsApplicable(inst, env, cs, t, recorded, readable, n - 1);
      var e := PlanOne(env, cs[n - 1], t, recorded, readable[n - 1]).value;
      if e.Planned? {
        var target := Target(env.catalog, cs[n - 1].name).value;
        assert e.pc.Binaries() == target.Binaries();
      }
    }
  }

  /** The disk and its crash points after part of a pass: every one a trust step from where the pass began. */
  ghost predicate PassStep(inst: Installer, o: Tree, seen0: set<Tree>, files: Tree, seen: set<Tree>) {
    && seen0 <= seen && TrustStep(inst.stateDir, inst.codec, inst.channel, o, files)
    && forall s :: s in seen ==> s in seen0 || TrustStep(inst.stateDir, inst.codec, inst.channel, o, s)
  }

  lemma {:induction false} PassTrustIsSteps(inst: Installer, m: TrustState, may: bool, o: Tree, seen0: set<Tree>,
                                            files: Tree, seen: set<Tree>)
    requires PassTrust(inst, m, may, o, seen0, files, seen)
    ensures PassStep(inst, o, seen0, files, seen)
    ensures !may ==> SameTrust(inst.stateDir, o, files)
  {
    forall s | s in seen && s !in seen0
      ensures TrustStep(inst.stateDir, inst.codec, inst.channel, o, s)
    {
      assert TrustOutcome(inst, m, may, o, seen0, s);
    }
  }

  /** What may install at all: a verified feed the broker itself re-verified against the state it loaded. */
  ghost predicate Authorized(inst: Installer, report: WorkerReport, accepts: (TrustState, TrustState) -> bool,
                             o: Tree) {
    var loaded := LoadFrom(ForChannel(inst.stateDir, inst.channel, inst.codec), o);
    report.Verified? && loaded.Ok? && accepts(loaded.value.state, report.manifest.marks)
  }

  /** Create and harden the state, cache and apply directories before anything is fetched or installed. */
  method HardenDirectories(disk: Disk) returns (ok: bool)
    requires disk.Valid()
    modifies disk`tick
    ensures Quiet(disk.answers) ==> ok
  {
    var dirs := 0;
    while dirs < 4
      invariant 0 <= dirs <= 4
    {
      var made := disk.Perform();
      if !made { return false; }
      var hardened := disk.Perform();
      if !hardened { return false; }
      dirs := dirs + 1;
    }
    ok := true;
  }

  /** Where staging once lived: a directory nested in the state directory. */
  function LegacyStaging(stateDir: string): string { stateDir + SEPARATOR + "staging" }

  /** Only debris of the nested staging directory has gone, at every state so far. */
  ghost predicate OnlyDebrisGone(stateDir: string, o: Tree, seen0: set<Tree>, files: Tree, seen: set<Tree>) {
    && seen0 <= seen && OnlyRemovedUnder(o, files, LegacyStaging(stateDir))
    && forall s :: s in seen ==> s in seen0 || OnlyRemovedUnder(o, s, LegacyStaging(stateDir))
  }

  /** The debris lies below the state directory, so clearing it touches no file directly in it. */
  lemma {:induction false} DebrisIsNoState(stateDir: string, o: Tree, seen0: set<Tree>, files: Tree, seen: set<Tree>)
    requires OnlyDebrisGone(stateDir, o, seen0, files, seen)
    ensures Guarded(o, seen0, files, seen, stateDir) && TrustKept(stateDir, o, seen0, files, seen)
  {
    forall s, p: Path | OnlyRemovedUnder(o, s, LegacyStaging(stateDir)) && p.dir == stateDir
      ensures SameAt(o, s, p)
    {
      assert |LegacyStaging(stateDir)| == |stateDir| + 8;
    }
    GuardedKeepsTrust(stateDir, o, seen0, files, seen);
  }

  /** Make staging writable by the worker, and clear the debris; failing to remove dead bytes fails nothing. */
  method PrepareStaging(disk: Disk, stateDir: string) returns (ok: bool)
    requires disk.Valid()
    modifies disk
    ensures disk.Valid()
    ensures OnlyDebrisGone(stateDir, old(disk.files), old(disk.seen), disk.files, disk.seen)
    ensures !ok ==> disk.files == old(disk.files) && disk.seen == old(disk.seen)
    ensures Quiet(disk.answers) ==> ok && forall p :: p in disk.files ==> !Under(p, LegacyStaging(stateDir))
  {
    ok := disk.Perform();
    if !ok { return; }
    ok := disk.Perform();
    if !ok { return; }
    var _ := disk.RemoveDirAll(LegacyStaging(stateDir));
  }

  /** A pass that applied its plan: its history, its report, and its marks. */
  ghost predicate Ended(inst: Installer, env: PlanEnv, manifest: Manifest, h: PassHistory, files: Tree,
                        report: PassReport) {
    && PassDone(inst, env, manifest.components, h, files) && Reported(inst, h.plan, h.turns, h.own, report)
    && Advanced(inst, manifest.marks, report.stateAdvanced, h.start, files)
  }

  /** What made an authorised pass fail: its plan, or the turn it stopped at. */
  ghost predicate FailedBy(env: PlanEnv, cs: seq<ManifestComponent>, h: PassHistory, e: Error) {
    || (|h.readable| <= |cs| && PlanOf(env, cs, h.start, h.recorded, h.readable, |h.readable|) == Err(e))
    || Stopped(h.turns, e) || (h.own.Some? && h.own.value.result == Err(e))
  }

  /** Plan the accepted manifest and apply the plan. */
  method PlanAndApply(inst: Installer, env: PlanEnv, manifest: Manifest, loaded: LoadedState)
    returns (r: Result<PassReport>, ghost h: PassHistory)
    requires inst.disk.Valid() && inst.Configured()
    requires forall target :: target in env.catalog ==> TargetApplicable(inst, target)
    requires LoadFrom(ForChannel(inst.stateDir, inst.channel, inst.codec), inst.disk.files) == Ok(loaded)
    modifies inst.disk, inst.staging, inst.services
    ensures inst.disk.Valid() && h.start == old(inst.disk.files)
    ensures PassTrust(inst, manifest.marks, MayAdvance(inst, h.turns), old(inst.disk.files), old(inst.disk.seen),
                      inst.disk.files, inst.disk.seen)
    ensures Served(inst, h.turns, h.own, old(inst.services.log), inst.services.log)
    ensures r.Ok? ==> Ended(inst, env, manifest, h, inst.disk.files, r.value)
    ensures r.Err? && Quiet(inst.disk.answers) ==> FailedBy(env, manifest.components, h, r.error)
  {
    h := Idle(inst.disk.files).(readAt := inst.disk.tick);
    var recorded := I.LoadBuilds(inst.disk, inst.records);
    var plan, readable := Build(inst.disk, env, manifest.components, recorded);
    if plan.Err? {
      NothingServed(inst, inst.services.log);
      h := h.(recorded := recorded, readable := readable);
      r := Err(plan.error);
      return;
    }
    PlannedIsApplicable(inst, env, manifest.components, inst.disk.files, recorded, readable, |readable|);
    ghost var turns, own;
    r, turns, own := ApplyPlan(inst, plan.value, manifest.marks, loaded);
    h := PassHistory(h.readAt, recorded, readable, plan.value, turns, own, h.start);
  }

  /** Load the trust state, re-verify the report against it with the broker's own eyes (`accepts`), plan and apply. */
  method VerifyAndApply(inst: Installer, env: PlanEnv, report: WorkerReport, accepts: (TrustState, TrustState) -> bool)
    returns (r: Result<PassEnd>, ghost h: PassHistory)
    requires inst.disk.Valid() && inst.Configured()
    requires forall target :: target in env.catalog ==> TargetApplicable(inst, target)
    modifies inst.disk, inst.staging, inst.services
    ensures inst.disk.Valid() && h.start == old(inst.disk.files)
    ensures Authorized(inst, report, accepts, h.start) ==>
              PassTrust(inst, report.manifest.marks, MayAdvance(inst, h.turns), old(inst.disk.files),
                        old(inst.disk.seen), inst.disk.files, inst.disk.seen)
    ensures !Authorized(inst, report, accepts, h.start) ==>
              inst.disk.files == old(inst.disk.files) && inst.disk.seen == old(inst.disk.seen) && h == Idle(h.start)
    ensures Served(inst, h.turns, h.own, old(inst.services.log), inst.services.log)
    ensures r.Ok? ==> r.value.Applied? || (r.value == NothingToDo && report.Rejected?)
    ensures r.Ok? && r.value.Applied? ==>
              && Authorized(inst, report, accepts, h.start)
              && Ended(inst, env, report.manifest, h, inst.disk.files, r.value.report)
    ensures r.Err? && Quiet(inst.disk.answers) && Authorized(inst, report, accepts, h.start) ==>
              FailedBy(env, report.manifest.components, h, r.error)
  {
    h := Idle(inst.disk.files);
    NothingServed(inst, inst.services.log);
    var loaded := Load(inst.disk, ForChannel(inst.stateDir, inst.channel, inst.codec));
    if loaded.Err? {
      r := Err(loaded.error);
      return;
    }
    if report.Rejected? {
      r := Ok(NothingToDo);
      return;
    }
    if !accepts(loaded.value.state, report.manifest.marks) {
      r := Err(ReverifyFailed);
      return;
    }
    ghost var history;
    var applied;
    applied, history := PlanAndApply(inst, env, report.manifest, loaded.value);
    h := history;
    r := if applied.Ok? then Ok(Applied(applied.value)) else Err(applied.error);
  }

  /** The environment a pass plans in: the host's evidence and hash, its catalog, and what the worker staged. */
  function EnvOf(inst: Installer, catalog: Catalog, platform: Platform, report: WorkerReport): PlanEnv {
    PlanEnv(inst.ev, inst.cache.h, catalog, platform, if report.Verified? then report.staged else [])
  }

  /**
   What a pass, ended or crashed, may have done to the disk: with the self-check clean and the feed
   authorised, trust steps only, the marks moving only if its turns allow it; otherwise nothing but debris.
   */
  ghost predicate PassPromise(inst: Installer, report: WorkerReport, accepts: (TrustState, TrustState) -> bool,
                              aclClean: bool, o: Tree, seen0: set<Tree>, h: PassHistory, files: Tree, seen: set<Tree>) {
    && PassStep(inst, o, seen0, files, seen) && OnlyRemovedUnder(o, h.start, LegacyStaging(inst.stateDir))
    && (inst.suppressStateAdvance ==> SameTrust(inst.stateDir, o, files))
    && if aclClean && Authorized(inst, report, accepts, o) then
         PassTrust(inst, report.manifest.marks, MayAdvance(inst, h.turns), o, seen0, files, seen)
       else
         h == Idle(h.start) && OnlyDebrisGone(inst.stateDir, o, seen0, files, seen)
         && (!aclClean ==> files == o && seen == seen0)
  }

  /** With only debris gone, a pass that stops there keeps its promise. */
  lemma {:induction false} StoppingKeepsThePromise(inst: Installer, report: WorkerReport,
                                                   accepts: (TrustState, TrustState) -> bool, aclClean: bool, o: Tree,
                                                   seen0: set<Tree>, files: Tree, seen: set<Tree>)
    requires OnlyDebrisGone(inst.stateDir, o, seen0, files, seen) && (!aclClean ==> files == o && seen == seen0)
    ensures PassPromise(inst, report, accepts, aclClean, o, seen0, Idle(files), files, seen)
  {
    DebrisIsNoState(inst.stateDir, o, seen0, files, seen);
  }

  /** Once staging is prepared, what the rest of the pass does is what the whole pass does. */
  lemma {:induction false} PreparedKeepsThePromise(inst: Installer, report: WorkerReport,
                                                   accepts: (TrustState, TrustState) -> bool, o: Tree, seen0: set<Tree>,
                                                   seen1: set<Tree>, h: PassHistory, files: Tree, seen: set<Tree>)
    requires OnlyDebrisGone(inst.stateDir, o, seen0, h.start, seen1)
    requires Authorized(inst, report, accepts, h.start) ==>
               PassTrust(inst, report.manifest.marks, MayAdvance(inst, h.turns), h.start, seen1, files, seen)
    requires !Authorized(inst, report, accepts, h.start) ==> files == h.start && seen == seen1 && h == Idle(h.start)
    ensures PassPromise(inst, report, accepts, true, o, seen0, h, files, seen)
    ensures Authorized(inst, report, accepts, o) <==> Authorized(inst, report, accepts, h.start)
    ensures Authorized(inst, report, accepts, o) ==>
              forall advanced :: Advanced(inst, report.manifest.marks, advanced, h.start, files) ==>
                                   Advanced(inst, report.manifest.marks, advanced, o, files)
  {
    DebrisIsNoState(inst.stateDir, o, seen0, h.start, seen1);
    if Authorized(inst, report, accepts, o) {
      var marks, may := report.manifest.marks, MayAdvance(inst, h.turns);
      PassTrustFrom(inst, marks, may, o, seen0, h.start, seen1, files, seen);
      PassTrustIsSteps(inst, marks, may, o, seen0, files, seen);
    }
  }

  /** One pass: harden, self-check, prepare staging, then load, re-verify, plan and apply. */
  method RunPass(inst: Installer, catalog: Catalog, platform: Platform, report: WorkerReport,
                 accepts: (TrustState, TrustState) -> bool, aclClean: bool)
    returns (r: Result<PassEnd>, ghost h: PassHistory)
    requires inst.disk.Valid() && inst.Configured()
    requires forall target :: target in catalog ==> TargetApplicable(inst, target)
    modifies inst.disk, inst.staging, inst.services
    ensures inst.disk.Valid()
    ensures PassPromise(inst, report, accepts, aclClean, old(inst.disk.files), old(inst.disk.seen), h,
                        inst.disk.files, inst.disk.seen)
    ensures Served(inst, h.turns, h.own, old(inst.services.log), inst.services.log)
    ensures r.Ok? ==> r.value.Applied? || (r.value == NothingToDo && report.Rejected?)
    ensures r.Ok? && r.value.Applied? ==>
              aclClean && Authorized(inst, report, accepts, old(inst.disk.files)) &&
              var env, done := EnvOf(inst, catalog, platform, report), r.value.report;
              && Ended(inst, env, report.manifest, h, inst.disk.files, done)
              && Advanced(inst, report.manifest.marks, done.stateAdvanced, old(inst.disk.files), inst.disk.files)
    ensures r.Err? && Quiet(inst.disk.answers) && aclClean
            && Authorized(inst, report, accepts, old(inst.disk.files)) ==>
              FailedBy(EnvOf(inst, catalog, platform, report), report.manifest.components, h, r.error)
  {
    ghost var o, seen0 := inst.disk.files, inst.disk.seen;
    h := Idle(o);
    NothingServed(inst, inst.services.log);
    StoppingKeepsThePromise(inst, report, accepts, aclClean, o, seen0, o, seen0);
    var ok := HardenDirectories(inst.disk);
    if !ok || !aclClean {
      r := Err(if !ok then Io else AclViolation);
      return;
    }
    ok := PrepareStaging(inst.disk, inst.stateDir);
    if !ok {
      r := Err(Io);
      return;
    }
    ghost var seen1, history := inst.disk.seen, h;
    r, history := VerifyAndApply(inst, EnvOf(inst, catalog, platform, report), report, accepts);
    h := history;
    PreparedKeepsThePromise(inst, report, accepts, o, seen0, seen1, h, inst.disk.files, inst.disk.seen);
  }

  /** What the schedule self-heal finds: whether the beacon's own path resolves, and what `ensure` reads and meets. */
  datatype SelfHeal = SelfHeal(resolved: bool, reading: S.Presence, readable: bool, guard: S.Guard, g: S.Registration)

  /** The states the self-heal takes the schedule through. */
  function HealStates(s: S.Registry, heal: SelfHeal): seq<S.Registry> {
    if heal.resolved then S.EnsureRun(s, heal.reading, heal.readable, heal.guard, heal.g).1 else []
  }

  /** Re-assert the daily task; whatever comes of it is only logged. */
  method SelfHealSchedule(host: S.Host, heal: SelfHeal)
    modifies host
    ensures host.Ran(HealStates(old(host.State()), heal))
  {
    if heal.resolved {
      var _ := host.Ensure(heal.reading, heal.readable, heal.guard, heal.g);
    }
  }

  /**
   The gates before a pass: the single-instance lock, then the schedule self-heal, then the configuration,
   which fails closed, then the pause.
   */
  method RunOnce(inst: Installer, host: S.Host, locked: Result<bool>, heal: SelfHeal, paused: Result<bool>,
                 catalog: Catalog, platform: Platform, report: WorkerReport,
                 accepts: (TrustState, TrustState) -> bool, aclClean: bool)
    returns (r: Result<PassEnd>, ghost h: PassHistory)
    requires inst.disk.Valid() && inst.Configured()
    requires forall target :: target in catalog ==> TargetApplicable(inst, target)
    modifies host, inst.disk, inst.staging, inst.services
    ensures inst.disk.Valid()
    ensures host.Ran(if locked == Ok(true) then HealStates(old(host.State()), heal) else [])
    ensures PassPromise(inst, report, accepts, aclClean, old(inst.disk.files), old(inst.disk.seen), h,
                        inst.disk.files, inst.disk.seen)
    ensures Served(inst, h.turns, h.own, old(inst.services.log), inst.services.log)
    ensures locked != Ok(true) || paused != Ok(false) ==>
              inst.disk.files == old(inst.disk.files) && inst.disk.seen == old(inst.disk.seen)
              && inst.services.log == old(inst.services.log)
    ensures locked == Ok(false) <==> r == Ok(AlreadyRunning)
    ensures locked == Ok(true) && paused == Ok(true) <==> r == Ok(Paused)
    ensures locked.Err? || (locked == Ok(true) && paused.Err?) ==> r.Err?
    ensures r == Ok(NothingToDo) ==> report.Rejected?
    ensures r.Ok? && r.value.Applied? ==>
              aclClean && Authorized(inst, report, accepts, old(inst.disk.files)) &&
              var env, done := EnvOf(inst, catalog, platform, report), r.value.report;
              && Ended(inst, env, report.manifest, h, inst.disk.files, done)
              && Advanced(inst, report.manifest.marks, done.stateAdvanced, old(inst.disk.files), inst.disk.files)
  {
    h := Idle(inst.disk.files);
    NothingServed(inst, inst.services.log);
    ghost var o, seen0 := inst.disk.files, inst.disk.seen;
    StoppingKeepsThePromise(inst, report, accepts, aclClean, o, seen0, o, seen0);
    if locked != Ok(true) {
      assert locked.Ok? ==> !locked.value;
      r := if locked.Err? then Err(locked.error) else Ok(AlreadyRunning);
      return;
    }
    SelfHealSchedule(host, heal);
    if paused != Ok(false) {
      assert paused.Ok? ==> paused.value;
      r := if paused.Err? then Err(paused.error) else Ok(Paused);
      return;
    }
    ghost var history := h;
    r, history := RunPass(inst, catalog, platform, report, accepts, aclClean);
    h := history;
  }

  /** Whatever crash point a pass is stopped at, no channel's marks are lower, and the other channel's are the same. */
  lemma {:induction false} CrashNeverLowersMarks(inst: Installer, o: Tree, seen0: set<Tree>, files: Tree,
                                                 seen: set<Tree>, s: Tree, any: Channel)
    requires LawfulJson(inst.codec) && PassStep(inst, o, seen0, files, seen)
    requires s == files || (s in seen && s !in seen0)
    ensures NeverLowered(Effective(inst.stateDir, inst.codec, any, o), Effective(inst.stateDir, inst.codec, any, s))
    ensures any != inst.channel ==>
              Effective(inst.stateDir, inst.codec, any, o) == Effective(inst.stateDir, inst.codec, any, s)
  {
    PassKeepsMarks(inst.stateDir, inst.codec, inst.channel, o, s, any);
  }

  // ---------------------------------------------------------------- runs of passes

  /** One pass of a host, ended or cut at one of its crash points, and the disk it left. */
  datatype PassSpan = PassSpan(inst: Installer, report: WorkerReport, accepts: (TrustState, TrustState) -> bool,
                               aclClean: bool, start: Tree, seen0: set<Tree>, h: PassHistory, files: Tree,
                               seen: set<Tree>, left: Tree)
  {
    /** The pass kept its promise, and stopped at its end or at a state it passed through. */
    ghost predicate Kept() {
      && PassPromise(inst, report, accepts, aclClean, start, seen0, h, files, seen)
      && (left == files || (left in seen && left !in seen0))
    }
  }

  /** Passes of one host, on whichever channels, between which nothing touches the trust files. */
  ghost predicate Passes(dir: string, codec: JsonCodec, run: seq<PassSpan>) {
    && (forall i :: 0 <= i < |run| ==> run[i].Kept() && run[i].inst.stateDir == dir && run[i].inst.codec == codec)
    && Follow(dir, run)
  }

  ghost predicate Follow(dir: string, run: seq<PassSpan>) {
    forall i :: 0 <= i < |run| - 1 ==> SameTrust(dir, run[i].left, run[i + 1].start)
  }

  function Channels(run: seq<PassSpan>): (r: seq<Channel>)
    ensures |r| == |run| && forall i :: 0 <= i < |r| ==> r[i] == run[i].inst.channel
  {
    seq(|run|, i requires 0 <= i < |run| => run[i].inst.channel)
  }

  /** The disk each pass starts from, and the one the last leaves. */
  function Disks(run: seq<PassSpan>): (r: seq<Tree>)
    requires run != []
    ensures |r| == |run| + 1 && r[|run|] == run[|run| - 1].left
    ensures forall i :: 0 <= i < |run| ==> r[i] == run[i].start
  {
    seq(|run| + 1, i requires 0 <= i <= |run| => if i < |run| then run[i].start else run[|run| - 1].left)
  }

  lemma {:induction false} SpanIsATrustStep(p: PassSpan, next: Tree)
    requires p.Kept() && SameTrust(p.inst.stateDir, p.left, next)
    ensures TrustStep(p.inst.stateDir, p.inst.codec, p.inst.channel, p.start, next)
  {
    var dir, codec, ch := p.inst.stateDir, p.inst.codec, p.inst.channel;
    assert TrustStep(dir, codec, ch, p.start, p.left);
    if !SameTrust(dir, p.start, p.left) {
      var m: TrustState :| PublishedStep(dir, codec, ch, m, p.start, p.left);
      assert PublishedStep(dir, codec, ch, m, p.start, next);
    }
  }

  /** Passes, ended or crashed, are a run of trust steps. */
  lemma {:induction false} PassesAreARun(dir: string, codec: JsonCodec, run: seq<PassSpan>)
    requires run != [] && Passes(dir, codec, run)
    ensures Run(dir, codec, Channels(run), Disks(run))
  {
    var disks := Disks(run);
    forall i | 0 <= i < |run| ensures TrustStep(dir, codec, Channels(run)[i], disks[i], disks[i + 1]) {
      NextStartsFromIt(dir, run, i);
      SpanIsATrustStep(run[i], disks[i + 1]);
    }
  }

  /** What a pass leaves and what the next starts from hold the same trust files. */
  lemma {:induction false} NextStartsFromIt(dir: string, run: seq<PassSpan>, j: nat)
    requires Follow(dir, run) && j < |run|
    ensures SameTrust(dir, run[j].left, Disks(run)[j + 1])
  {}

  /**
   Over any passes of a host, each ended or cut by a crash anywhere, with any channel switches, no channel's
   effective marks are lower after a pass than before any earlier one.
   */
  lemma {:induction false} PassesNeverLowerMarks(dir: string, codec: JsonCodec, run: seq<PassSpan>, any: Channel,
                                                 i: nat, j: nat)
    requires LawfulJson(codec) && Passes(dir, codec, run) && i <= j < |run|
    ensures NeverLowered(Effective(dir, codec, any, run[i].start), Effective(dir, codec, any, run[j].left))
  {
    var disks := Disks(run);
    PassesAreARun(dir, codec, run);
    MarksNeverDecrease(dir, codec, Channels(run), disks, any, i, j + 1);
    NextStartsFromIt(dir, run, j);
    SameTrustSameMarks(dir, codec, run[j].left, disks[j + 1], any);
  }

  // ---------------------------------------------------------------- the manual rollback

  /**
   What a manual rollback has done: every file but a working copy is as before or holds bytes vouched for
   when its key had its turn; and, when no record points into the cache, vouched for from the start.
   */
  ghost predicate RolledBackTo(cache: LkgCache, keys: seq<Key>, floor: nat, trees: seq<Tree>, o: Tree, seen0: set<Tree>,
                               files: Tree, seen: set<Tree>) {
    && RolledTo(cache, keys, floor, trees, o, seen0, files, seen)
    && (RecordsPointOutside(cache, keys, o) ==>
          && RollbackState(cache, keys, floor, o, files)
          && forall s :: s in seen ==> s in seen0 || RollbackState(cache, keys, floor, o, s))
  }

  lemma {:induction false} RolledIsRolledBack(cache: LkgCache, keys: seq<Key>, floor: nat, trees: seq<Tree>, o: Tree,
                                              seen0: set<Tree>, files: Tree, seen: set<Tree>)
    requires RolledTo(cache, keys, floor, trees, o, seen0, files, seen)
    ensures RolledBackTo(cache, keys, floor, trees, o, seen0, files, seen)
  {
    if RecordsPointOutside(cache, keys, o) {
      forall s | s == files || (s in seen && s !in seen0) ensures RollbackState(cache, keys, floor, o, s) {
        VouchedFromTheStart(cache, keys, floor, trees, s);
      }
    }
  }

  lemma {:induction false} RolledFromNothing(cache: LkgCache, keys: seq<Key>, floor: nat, o: Tree, seen: set<Tree>)
    ensures RolledBackTo(cache, keys, floor, [o], o, seen, o, seen)
  {
    RolledIsRolledBack(cache, keys, floor, [o], o, seen, o, seen);
  }

  /** The manual rollback: the floor comes from the tracked channel's persisted state, never from the caller. */
  method RollbackToLastKnownGood(disk: Disk, stateDir: string, codec: JsonCodec, channel: Channel, cache: LkgCache,
                                 keys: seq<Key>)
    returns (r: Result<seq<Key>>, ghost trees: seq<Tree>)
    requires disk.Valid()
    modifies disk
    ensures disk.Valid() && old(disk.seen) <= disk.seen
    ensures var floor := Effective(stateDir, codec, channel, old(disk.files));
            if floor.Err? then r.Err? && disk.files == old(disk.files) && disk.seen == old(disk.seen)
            else RolledBackTo(cache, keys, floor.value.rollbackFloorBuild, trees, old(disk.files), old(disk.seen),
                              disk.files, disk.seen)
    ensures r.Ok? ==> r.value == keys && |trees| == |keys| + 1
                      && var floor := Effective(stateDir, codec, channel, old(disk.files)).value.rollbackFloorBuild;
                         forall i: nat :: i < |keys| ==> Reinstated(cache, keys, floor, trees, disk.files, i)
  {
    trees := [disk.files];
    var loaded := Load(disk, ForChannel(stateDir, channel, codec));
    if loaded.Err? {
      if Effective(stateDir, codec, channel, disk.files).Ok? {
        ghost var floor := Effective(stateDir, codec, channel, disk.files).value.rollbackFloorBuild;
        RolledFromNothing(cache, keys, floor, disk.files, disk.seen);
      }
      r := Err(loaded.error);
      return;
    }
    ghost var o, seen0 := disk.files, disk.seen;
    r, trees := RollbackAll(disk, cache, keys, loaded.value.state.rollbackFloorBuild);
    RolledIsRolledBack(cache, keys, loaded.value.state.rollbackFloorBuild, trees, o, seen0, disk.files, disk.seen);
  }
}
