/**
 The daily task and the opt-out marker: registering clears the marker, a deliberate removal records it
 first, and the self-heal registers only a provably absent task nobody opted out of. Every effect may
 fail, and the host remembers each state it passes through, so a crash between effects is covered.
 */
module Scheduler {

  /** A marker counts only when it is privileged-owned. */
  datatype Marker = Missing | Plain | Honored

  datatype Registry = Registry(registered: bool, marker: Marker) {
    /** Neither scheduled nor opted out: nothing wakes the beacon, and nothing says that was meant. */
    predicate Neither() { !registered && marker != Honored }
    predicate OptedOut() { !registered && marker == Honored }
  }

  /** What an operation returned, and every state it passed through after the one it started in. */
  datatype Run = Run(ok: bool, states: seq<Registry>)

  function Last(s: Registry, states: seq<Registry>): Registry {
    if states == [] then s else states[|states| - 1]
  }

  // ---------------------------------------------------------------- faults

  datatype Writing = NotWritten | WrittenInPart | WrittenWhole

  /** How an outside command goes: it does nothing, works but reports an error, or works. */
  datatype Effect = Undone | DoneUnreported | Done

  /**
   How recording the opt-out goes: the directory, the file, whether a new file is born honored, whether its
   owner is privileged so that hardening alone makes it count, the hardening, and the ownership claim.
   */
  datatype RecordFaults = RecordFaults(dirMade: bool, writing: Writing, bornHonored: bool, ownerPrivileged: bool,
                                       hardening: Effect, claim: Effect) {
    /** Every step of the recording works. */
    predicate Flawless() { dirMade && writing.WrittenWhole? && hardening.Done? && claim.Done? }

    /** The file came to be written, whole or in part. */
    predicate Touches() { dirMade && !writing.NotWritten? }

    /** The hardening took hold, and with it a privileged owner: the one the file has, or the one it was given. */
    predicate Secures() {
      dirMade && writing.WrittenWhole? && !hardening.Undone?
      && (ownerPrivileged || (hardening.Done? && !claim.Undone?))
    }
  }

  /**
   What a recording that fails leaves: an honored marker once the file is secured although an error is
   reported; else nothing changes unless the file came to be written, and then only a host without a marker
   has a new one, which counts only if it was born so.
   */
  function LeftBehind(before: Marker, f: RecordFaults): Marker {
    if f.Secures() then Honored
    else if before != Missing || !f.Touches() then before
    else if f.bornHonored then Honored
    else Plain
  }

  /** How removing the task goes: done, or an error with the task gone or still there. */
  datatype Removal = Removed | RemovalFailed(gone: bool)

  /** How registering goes: whether an old task is torn down first, and whether the new one comes up. */
  datatype Registration = Registration(tearsDownFirst: bool, reportsOk: bool, takes: bool) {
    /** A registration that reports success has registered the task. */
    predicate Honest() { reportsOk ==> takes }
  }

  datatype Presence = Registered | Absent | Unknown

  /** The three privilege questions asked of the install root before anything is registered. */
  datatype Guard = Guard(dirPrivileged: bool, exePrivileged: bool, dirCreatesPrivileged: bool) {
    predicate Passes() { dirPrivileged && exePrivileged && dirCreatesPrivileged }
  }

  datatype EnsureAction = AlreadyRegistered | LeftUnknown | Reregistered | SuppressedByOptOut

  // ---------------------------------------------------------------- specification

  function RecordRun(s: Registry, f: RecordFaults): Run {
    if !f.Touches() then Run(false, [])
    else
      var written := s.(marker := if s.marker != Missing then s.marker else if f.bornHonored then Honored else Plain);
      if f.writing.WrittenInPart? || f.hardening.Undone? then Run(false, [written])
      else
        var hardened := if f.ownerPrivileged then written.(marker := Honored) else written;
        if !f.hardening.Done? || f.claim.Undone? then Run(false, [written, hardened])
        else Run(f.claim.Done?, [written, hardened, hardened.(marker := Honored)])
  }

  function ClearRun(s: Registry, removes: bool): Run {
    if s.marker == Missing then Run(true, [])
    else if removes then Run(true, [s.(marker := Missing)])
    else Run(false, [])
  }

  function RemoveRun(s: Registry, r: Removal): Run {
    match r
    case Removed => Run(true, [s.(registered := false)])
    case RemovalFailed(gone) => Run(false, if gone then [s.(registered := false)] else [])
  }

  function RegisterRun(s: Registry, g: Registration): Run {
    var cleared := if g.tearsDownFirst then [s.(registered := false)] else [];
    Run(g.reportsOk, cleared + if g.takes then [s.(registered := true)] else [])
  }

  function UninstallRun(s: Registry, f: RecordFaults, r: Removal, rescinds: bool): Run {
    var recorded := RecordRun(s, f);
    if !recorded.ok then recorded
    else
      var s1 := Last(s, recorded.states);
      var removed := RemoveRun(s1, r);
      if removed.ok then Run(true, recorded.states + removed.states)
      else
        var s2 := Last(s1, removed.states);
        Run(false, recorded.states + removed.states + ClearRun(s2, rescinds).states)
  }

  function InstallRun(s: Registry, guard: Guard, g: Registration, clears: bool): Run {
    if !guard.Passes() then Run(false, [])
    else
      var registered := RegisterRun(s, g);
      if !registered.ok then registered
      else
        var cleared := ClearRun(Last(s, registered.states), clears);
        Run(cleared.ok, registered.states + cleared.states)
  }

  function EnsureDecision(p: Presence): EnsureAction {
    match p
    case Registered => AlreadyRegistered
    case Unknown => LeftUnknown
    case Absent => Reregistered
  }

  /** The self-heal: what it reports (`None` on an error), and the states it passes through. */
  datatype EnsureEnd = Decided(action: EnsureAction) | Failed

  function EnsureRun(s: Registry, reading: Presence, readable: bool, guard: Guard,
                     g: Registration): (EnsureEnd, seq<Registry>) {
    if s.marker == Honored then (Decided(SuppressedByOptOut), [])
    else if !readable then (Failed, [])
    else if EnsureDecision(reading) != Reregistered then (Decided(EnsureDecision(reading)), [])
    else if !guard.Passes() then (Failed, [])
    else
      var registered := RegisterRun(s, g);
      (if registered.ok then Decided(Reregistered) else Failed, registered.states)
  }

  // ---------------------------------------------------------------- the host

  class Host {
    var registered: bool
    var marker: Marker
    ghost var trace: seq<Registry>

    constructor (s: Registry)
      ensures State() == s && trace == []
    {
      registered, marker := s.registered, s.marker;
      trace := [];
    }

    function State(): Registry
      reads this
    {
      Registry(registered, marker)
    }

    /** The run's effects have happened, in order, and nothing else. */
    twostate predicate Ran(states: seq<Registry>)
      reads this
    {
      trace == old(trace) + states && State() == Last(old(State()), states)
    }

    method SetMarker(m: Marker)
      modifies this
      ensures Ran([old(State()).(marker := m)])
    {
      marker := m;
      trace := trace + [State()];
    }

    method SetRegistered(b: bool)
      modifies this
      ensures Ran([old(State()).(registered := b)])
    {
      registered := b;
      trace := trace + [State()];
    }

    /** Write the marker, harden it, and claim its ownership; only then is it honored whoever owned it. */
    method SetOptedOut(f: RecordFaults) returns (ok: bool)
      modifies this
      ensures ok == RecordRun(old(State()), f).ok && Ran(RecordRun(old(State()), f).states)
      ensures registered == old(registered)
      ensures ok ==> marker == Honored
      ensures ok <==> f.Flawless()
      ensures !ok ==> marker == LeftBehind(old(marker), f)
      ensures old(marker) == Honored ==> forall i :: |old(trace)| <= i < |trace| ==> trace[i].marker == Honored
    {
      RecordLeaves(State(), f);
      assert Last(State(), []) == State() && trace + [] == trace;
      if !f.Touches() { return false; }
      SetMarker(if marker != Missing then marker else if f.bornHonored then Honored else Plain);
      if f.writing.WrittenInPart? { return false; }
      if f.hardening.Undone? { return false; }
      SetMarker(if f.ownerPrivileged then Honored else marker);
      if !f.hardening.Done? || f.claim.Undone? { return false; }
      SetMarker(Honored);
      ok := f.claim.Done?;
    }

    method ClearOptedOut(removes: bool) returns (ok: bool)
      modifies this
      ensures ok == ClearRun(old(State()), removes).ok && Ran(ClearRun(old(State()), removes).states)
    {
      if marker == Missing { return true; }
      if removes { SetMarker(Missing); }
      ok := removes;
    }

    method Remove(r: Removal) returns (ok: bool)
      modifies this
      ensures ok == RemoveRun(old(State()), r).ok && Ran(RemoveRun(old(State()), r).states)
    {
      if r.Removed? || r.gone { SetRegistered(false); }
      ok := r.Removed?;
    }

    method Register(g: Registration) returns (ok: bool)
      modifies this
      ensures ok == RegisterRun(old(State()), g).ok && Ran(RegisterRun(old(State()), g).states)
    {
      if g.tearsDownFirst { SetRegistered(false); }
      if g.takes { SetRegistered(true); }
      ok := g.reportsOk;
    }

    /** Record the intent first, then remove; withdraw the record if the removal reports an error. */
    method Uninstall(f: RecordFaults, r: Removal, rescinds: bool) returns (ok: bool)
      modifies this
      ensures ok == UninstallRun(old(State()), f, r, rescinds).ok
      ensures Ran(UninstallRun(old(State()), f, r, rescinds).states)
    {
      ok := SetOptedOut(f);
      if !ok { return; }
      ok := Remove(r);
      if !ok {
        var _ := ClearOptedOut(rescinds);
      }
    }

    /** Refuse an unprivileged install root, register, and only then clear an old opt-out. */
    method Install(guard: Guard, g: Registration, clears: bool) returns (ok: bool)
      modifies this
      ensures ok == InstallRun(old(State()), guard, g, clears).ok
      ensures Ran(InstallRun(old(State()), guard, g, clears).states)
    {
      if !guard.Passes() { return false; }
      ok := Register(g);
      if !ok { return; }
      ok := ClearOptedOut(clears);
    }

    method Ensure(reading: Presence, readable: bool, guard: Guard, g: Registration) returns (end: EnsureEnd)
      modifies this
      ensures end == EnsureRun(old(State()), reading, readable, guard, g).0
      ensures Ran(EnsureRun(old(State()), reading, readable, guard, g).1)
    {
      if marker == Honored { return Decided(SuppressedByOptOut); }
      if !readable { return Failed; }
      var action := EnsureDecision(reading);
      if action == Reregistered {
        if !guard.Passes() { return Failed; }
        var ok := Register(g);
        if !ok { return Failed; }
      }
      end := Decided(action);
    }
  }

  // ---------------------------------------------------------------- what recording the opt-out leaves

  /**
   Recording the opt-out succeeds exactly when every step of it works, and then the marker counts; it
   never touches the task and at no step takes the force of a marker away; and what a failure leaves.
   */
  lemma {:induction false} RecordLeaves(s: Registry, f: RecordFaults)
    ensures var run := RecordRun(s, f);
            && (run.ok <==> f.Flawless())
            && (run.ok ==> Last(s, run.states).marker == Honored)
            && (!run.ok ==> Last(s, run.states).marker == LeftBehind(s.marker, f))
            && forall i :: 0 <= i < |run.states| ==>
                 && run.states[i].registered == s.registered && run.states[i].marker != Missing
                 && (s.marker == Honored ==> run.states[i].marker == Honored)
  {}

  /**
   A failed recording leaves an opt-out that counts exactly where one counted before, a new file was born
   honored, or the file was secured before the error: hardened under a privileged owner, its own or claimed.
   */
  lemma {:induction false} FailedRecordCountsIff(s: Registry, f: RecordFaults)
    requires !f.Flawless()
    ensures Last(s, RecordRun(s, f).states).marker == Honored <==>
            || s.marker == Honored || (s.marker == Missing && f.Touches() && f.bornHonored)
            || (f.dirMade && f.writing.WrittenWhole? && !f.hardening.Undone?
                && (f.ownerPrivileged || (f.hardening.Done? && !f.claim.Undone?)))
  {
    RecordLeaves(s, f);
  }

  // ---------------------------------------------------------------- never "neither"

  ghost predicate SomeNeither(states: seq<Registry>) {
    exists i :: 0 <= i < |states| && states[i].Neither()
  }

  /**
   From a state that is scheduled or opted out, an uninstall passes through "neither" exactly when it
   recorded the intent, the removal reported an error with the task gone, and the record was withdrawn.
   */
  lemma {:induction false} UninstallLosesBothIff(s: Registry, f: RecordFaults, r: Removal, rescinds: bool)
    requires !s.Neither()
    ensures SomeNeither(UninstallRun(s, f, r, rescinds).states) <==>
            RecordRun(s, f).ok && r.RemovalFailed? && (r.gone || !s.registered) && rescinds
  {
    var run := UninstallRun(s, f, r, rescinds);
    if RecordRun(s, f).ok && r.RemovalFailed? && (r.gone || !s.registered) && rescinds {
      assert run.states[|run.states| - 1].Neither();
    }
  }

  /**
   With removals that are all or nothing, an uninstall is safe under every fault schedule exactly when the
   task is registered to begin with: repeating it once opted out can lose the opt-out.
   */
  lemma {:induction false} UninstallIsSafeIffRegistered(s: Registry)
    requires !s.Neither()
    ensures s.registered <==>
            forall f, r: Removal, rescinds :: r != RemovalFailed(true) ==>
                !SomeNeither(UninstallRun(s, f, r, rescinds).states)
  {
    forall f, r: Removal, rescinds
      ensures s.registered && r != RemovalFailed(true) ==> !SomeNeither(UninstallRun(s, f, r, rescinds).states)
    {
      UninstallLosesBothIff(s, f, r, rescinds);
    }
    if !s.registered {
      var works := RecordFaults(true, WrittenWhole, true, true, Done, Done);
      UninstallLosesBothIff(s, works, RemovalFailed(false), true);
      assert SomeNeither(UninstallRun(s, works, RemovalFailed(false), true).states);
    }
  }

  /**
   An install passes through "neither" exactly when it gets past the guard with no opt-out on record and
   the registration tears the old task down first.
   */
  lemma {:induction false} InstallLosesBothIff(s: Registry, guard: Guard, g: Registration, clears: bool)
    requires !s.Neither() && g.Honest()
    ensures SomeNeither(InstallRun(s, guard, g, clears).states) <==>
            guard.Passes() && s.marker != Honored && g.tearsDownFirst
  {
    var run := InstallRun(s, guard, g, clears);
    if guard.Passes() && s.marker != Honored && g.tearsDownFirst {
      assert run.states[0].Neither();
    }
  }

  /** A failed install never re-arms a deliberate opt-out: the marker goes only once the task is registered. */
  lemma {:induction false} MarkerOutlivesAFailedInstall(s: Registry, guard: Guard, g: Registration, clears: bool,
                                                        i: nat)
    requires g.Honest() && s.marker == Honored && i < |InstallRun(s, guard, g, clears).states|
    ensures var t := InstallRun(s, guard, g, clears).states[i];
            t.marker == Honored || (t.registered && InstallRun(s, guard, g, clears).ok)
  {}

  // ---------------------------------------------------------------- an opt-out is respected

  datatype Op = Ensuring(reading: Presence, readable: bool, guard: Guard, g: Registration)
              | Uninstalling(f: RecordFaults, r: Removal, rescinds: bool)
              | Installing(guard: Guard, g: Registration, clears: bool)

  function Effects(s: Registry, op: Op): seq<Registry> {
    match op
    case Ensuring(reading, readable, guard, g) => EnsureRun(s, reading, readable, guard, g).1
    case Uninstalling(f, r, rescinds) => UninstallRun(s, f, r, rescinds).states
    case Installing(guard, g, clears) => InstallRun(s, guard, g, clears).states
  }

  /**
   An install that brings the task up or says it did, or an uninstall that fails after recording and
   withdraws its record.
   */
  predicate Undoes(op: Op) {
    match op
    case Ensuring(_, _, _, _) => false
    case Uninstalling(f, r, rescinds) => RecordRun(Registry(false, Honored), f).ok && r.RemovalFailed? && rescinds
    case Installing(guard, g, clears) => guard.Passes() && (g.takes || (g.reportsOk && clears))
  }

  /** An operation taken to its end, or cut by a crash after some of its effects. */
  datatype Taken = Whole(op: Op) | Cut(op: Op, kept: nat)

  /** The effects that happened. */
  function Happened(s: Registry, t: Taken): seq<Registry> {
    var all := Effects(s, t.op);
    if t.Cut? && t.kept < |all| then all[..t.kept] else all
  }

  function After(s: Registry, run: seq<Taken>): Registry {
    if run == [] then s
    else
      var before := After(s, run[..|run| - 1]);
      Last(before, Happened(before, run[|run| - 1]))
  }

  lemma {:induction false} StaysOptedOut(s: Registry, run: seq<Taken>)
    requires s.OptedOut() && forall t :: t in run ==> !Undoes(t.op)
    ensures After(s, run).OptedOut()
  {
    if run != [] {
      var n := |run| - 1;
      StaysOptedOut(s, run[..n]);
      var before := After(s, run[..n]);
      assert run[n] in run;
      if Happened(before, run[n]) != [] { KeepsOptOut(before, run[n].op, |Happened(before, run[n])| - 1); }
    }
  }

  /**
   An opted-out host stays opted out through any run of operations, each taken to its end or cut by a crash
   anywhere, at every step of each, as long as none of them is one of those that undo it; no number of
   self-heals re-registers it.
   */
  lemma {:induction false} OptOutIsRespected(s: Registry, run: seq<Taken>, k: nat)
    requires s.OptedOut() && k < |run| && forall t :: t in run ==> !Undoes(t.op)
    ensures After(s, run).OptedOut()
    ensures forall t :: t in Happened(After(s, run[..k]), run[k]) ==> t.OptedOut()
  {
    StaysOptedOut(s, run);
    StaysOptedOut(s, run[..k]);
    assert run[k] in run;
    var before := After(s, run[..k]);
    forall i | 0 <= i < |Happened(before, run[k])| ensures Happened(before, run[k])[i].OptedOut() {
      KeepsOptOut(before, run[k].op, i);
    }
  }

  lemma {:induction false} KeepsOptOut(s: Registry, op: Op, i: nat)
    requires s.OptedOut() && !Undoes(op) && i < |Effects(s, op)|
    ensures Effects(s, op)[i].OptedOut()
  {
    match op {
      case Ensuring(_, _, _, _) =>
      case Installing(_, _, _) =>
      case Uninstalling(f, _, _) => assert RecordRun(s, f).states == RecordRun(Registry(false, Honored), f).states;
    }
  }

  /** Each of those does undo it, so the condition is exact. */
  lemma {:induction false} UndoingUndoes(s: Registry, op: Op)
    requires s.OptedOut() && Undoes(op)
    ensures exists i :: 0 <= i < |Effects(s, op)| && !Effects(s, op)[i].OptedOut()
  {
    match op {
    case Uninstalling(f, r, rescinds) =>
      var states := Effects(s, op);
      assert !states[|states| - 1].OptedOut();
    case Installing(guard, g, clears) =>
      var k := if g.tearsDownFirst then 1 else 0;
      if g.takes { assert Effects(s, op)[k] == s.(registered := true); }
      else { assert Effects(s, op)[k].marker == Missing; }
    }
  }

  const WORKS := RecordFaults(true, WrittenWhole, true, true, Done, Done)
  const FIRST := Uninstalling(WORKS, Removed, true)
  const SECOND := Uninstalling(WORKS, RemovalFailed(false), true)
  const HEAL := Ensuring(Absent, true, Guard(true, true, true), Registration(false, true, true))

  lemma {:induction false} TheFirstOptsOut()
    ensures Last(Registry(true, Missing), Effects(Registry(true, Missing), FIRST)) == Registry(false, Honored)
    ensures Effects(Registry(false, Honored), HEAL) == []
  {}

  lemma {:induction false} TheSecondUndoesIt()
    ensures Last(Registry(false, Honored), Effects(Registry(false, Honored), SECOND)) == Registry(false, Missing)
  {}

  lemma {:induction false} TheHealRegisters()
    ensures Last(Registry(false, Missing), Effects(Registry(false, Missing), HEAL)) == Registry(true, Missing)
  {}

  lemma {:induction false} AfterOneMore(s: Registry, run: seq<Taken>, op: Op)
    ensures After(s, run + [Whole(op)]) == Last(After(s, run), Effects(After(s, run), op))
  {
    assert (run + [Whole(op)])[..|run|] == run;
  }

  /** A second uninstall whose removal errs withdraws the first one's record, and the next self-heal re-registers. */
  lemma {:induction false} SecondUninstallCanUndoTheFirst(s: Registry, run: seq<Taken>)
    requires After(s, run) == Registry(true, Missing)
    ensures After(s, run + [Whole(FIRST)]).OptedOut()
    ensures After(s, run + [Whole(FIRST)] + [Whole(HEAL)]).OptedOut()
    ensures After(s, run + [Whole(FIRST)] + [Whole(SECOND)]).Neither()
    ensures After(s, run + [Whole(FIRST)] + [Whole(SECOND)] + [Whole(HEAL)]) == Registry(true, Missing)
  {
    TheFirstOptsOut();
    TheSecondUndoesIt();
    TheHealRegisters();
    AfterOneMore(s, run, FIRST);
    AfterOneMore(s, run + [Whole(FIRST)], HEAL);
    AfterOneMore(s, run + [Whole(FIRST)], SECOND);
    AfterOneMore(s, run + [Whole(FIRST)] + [Whole(SECOND)], HEAL);
  }

  /** The self-heal touches the task only when it reads as provably absent and nobody opted out. */
  lemma {:induction false} EnsureActsOnlyOnProvableAbsence(s: Registry, reading: Presence, readable: bool, guard: Guard,
                                                           g: Registration)
    ensures EnsureRun(s, reading, readable, guard, g).1 != [] ==>
              s.marker != Honored && readable && reading == Absent && guard.Passes()
    ensures s.marker != Honored && readable && reading == Absent && guard.Passes() && g.reportsOk && g.Honest() ==>
              EnsureRun(s, reading, readable, guard, g).0 == Decided(Reregistered)
              && Last(s, EnsureRun(s, reading, readable, guard, g).1).registered
  {}
}
