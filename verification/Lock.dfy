/**
 The single-instance lock between processes, one operating-system call a step, in both realisations: a
 named object that exists while a handle to it is open, and an advisory lock on a file. A process that
 holds the lock loads the trust marks, may publish advanced ones, and drops the lock; any process may
 crash at any step, and the system closes what it had open.
 */
module Lock {
  import opened TrustStore

  type Pid = nat

  datatype Phase = Idle
                 | Opened(existed: bool)        // a handle is open, its fate not yet decided
                 | Guarded                      // the guard is live
                 | Loaded(marks: TrustState)    // the guard is live and the trust state has been read
                 | Unlocked                     // the file lock is released, the file still open

  /** Every process's phase, who has the object open, who owns the file lock, and the marks on disk. */
  datatype State = State(phases: map<Pid, Phase>, open: set<Pid>, owner: set<Pid>, marks: TrustState) {
    function PhaseOf(p: Pid): Phase { if p in phases then phases[p] else Idle }

    /** A pass is running under the guard of `p`. */
    predicate Live(p: Pid) { PhaseOf(p).Guarded? || PhaseOf(p).Loaded? }
  }

  datatype Step = Open(p: Pid) | Decide(p: Pid) | Read(p: Pid) | Publish(p: Pid, accepted: TrustState)
                | Drop(p: Pid) | Close(p: Pid)
                | Crash(p: Pid)

  datatype Realisation = NamedObject | FileLock

  function Init(marks: TrustState): State { State(map[], {}, {}, marks) }

  /** Open: the named object reports whether it already existed; a file is simply opened. */
  function AfterOpen(r: Realisation, s: State, p: Pid): State {
    s.(phases := s.phases[p := Opened(r.NamedObject? && s.open != {})], open := s.open + {p})
  }

  /** Decide: a named object that already existed, or a file someone has locked, is closed again. */
  function AfterDecide(r: Realisation, s: State, p: Pid): State {
    var refused := if r.NamedObject? then s.PhaseOf(p).Opened? && s.PhaseOf(p).existed else s.owner != {};
    if refused then s.(phases := s.phases[p := Idle], open := s.open - {p})
    else s.(phases := s.phases[p := Guarded], owner := if r.FileLock? then {p} else s.owner)
  }

  /** Drop: a named object is closed; a file is unlocked first and closed by a later step. */
  function AfterDrop(r: Realisation, s: State, p: Pid): State {
    if r.NamedObject? then s.(phases := s.phases[p := Idle], open := s.open - {p})
    else s.(phases := s.phases[p := Unlocked], owner := s.owner - {p})
  }

  function AfterCrash(s: State, p: Pid): State {
    s.(phases := s.phases[p := Idle], open := s.open - {p}, owner := s.owner - {p})
  }

  predicate Next(r: Realisation, s: State, step: Step, t: State) {
    match step
    case Open(p) => s.PhaseOf(p).Idle? && t == AfterOpen(r, s, p)
    case Decide(p) => s.PhaseOf(p).Opened? && t == AfterDecide(r, s, p)
    case Read(p) => s.PhaseOf(p).Guarded? && t == s.(phases := s.phases[p := Loaded(s.marks)])
    case Publish(p, accepted) =>
      s.PhaseOf(p).Loaded?
      && t == s.(phases := s.phases[p := Guarded], marks := s.PhaseOf(p).marks.Advance(accepted))
    case Drop(p) => s.Live(p) && t == AfterDrop(r, s, p)
    case Close(p) => s.PhaseOf(p).Unlocked? && t == s.(phases := s.phases[p := Idle], open := s.open - {p})
    case Crash(p) => t == AfterCrash(s, p)
  }

  /** A run: every state follows from the one before by some step of some process. */
  ghost predicate Run(r: Realisation, states: seq<State>, steps: seq<Step>) {
    && |states| == |steps| + 1 && states[0] == Init(states[0].marks)
    && forall i :: 0 <= i < |steps| ==> Next(r, states[i], steps[i], states[i + 1])
  }

  /** The process that created the named object, or that owns the file lock: the only one entitled to go on. */
  predicate Entitled(r: Realisation, s: State, p: Pid) {
    s.Live(p) || (r.NamedObject? && s.PhaseOf(p) == Opened(false))
  }

  /** What every step keeps. */
  ghost predicate Inv(r: Realisation, s: State) {
    && (forall p :: p in s.open <==> s.PhaseOf(p) != Idle)
    && (forall p, q :: Entitled(r, s, p) && Entitled(r, s, q) ==> p == q)
    && (r.FileLock? ==> forall p :: p in s.owner <==> s.Live(p))
    && (forall p :: s.PhaseOf(p).Loaded? ==> s.PhaseOf(p).marks == s.marks)
    && (r.NamedObject? ==> forall p :: !s.PhaseOf(p).Unlocked?)
  }

  /** Every step keeps the invariant and never lowers the marks on disk. */
  lemma {:induction false} StepKeepsInv(r: Realisation, s: State, step: Step, t: State)
    requires Inv(r, s) && Next(r, s, step, t)
    ensures Inv(r, t) && s.marks.AtMost(t.marks)
  {
    var p := step.p;
    assert forall q :: q != p ==> t.PhaseOf(q) == s.PhaseOf(q);
    forall q, q' | Entitled(r, t, q) && Entitled(r, t, q')
      ensures q == q'
    {
      StaysEntitled(r, s, step, t, q);
      StaysEntitled(r, s, step, t, q');
    }
    if step.Publish? {
      forall q | q != p ensures !s.PhaseOf(q).Loaded? {
        assert Entitled(r, s, p) && (Entitled(r, s, q) ==> p == q);
      }
    }
  }

  /** Whoever is entitled after a step was so before it, or became so when nobody was. */
  lemma {:induction false} StaysEntitled(r: Realisation, s: State, step: Step, t: State, q: Pid)
    requires Inv(r, s) && Next(r, s, step, t) && Entitled(r, t, q)
    ensures Entitled(r, s, q)
              || (q == step.p && forall other :: other != q ==> !Entitled(r, s, other) && !Entitled(r, t, other))
  {
    assert forall other :: other != step.p ==> t.PhaseOf(other) == s.PhaseOf(other);
    if !Entitled(r, s, q) {
      assert q == step.p;
      assert if r.NamedObject? then s.open == {} else s.owner == {};
      forall other | other != q ensures !Entitled(r, s, other) && !Entitled(r, t, other) {
        assert t.PhaseOf(other) == s.PhaseOf(other);
        assert other !in s.open || other !in s.owner;
      }
    }
  }

  lemma {:induction false} RunKeepsInv(r: Realisation, states: seq<State>, steps: seq<Step>, i: nat)
    requires Run(r, states, steps) && i < |states|
    ensures Inv(r, states[i])
  {
    if i > 0 {
      RunKeepsInv(r, states, steps, i - 1);
      StepKeepsInv(r, states[i - 1], steps[i - 1], states[i]);
    }
  }

  /** At most one guard is live, at every step of every run of any number of processes. */
  lemma {:induction false} MutualExclusion(r: Realisation, states: seq<State>, steps: seq<Step>, i: nat, p: Pid, q: Pid)
    requires Run(r, states, steps) && i < |states| && states[i].Live(p) && states[i].Live(q)
    ensures p == q
  {
    RunKeepsInv(r, states, steps, i);
    assert Entitled(r, states[i], p) && Entitled(r, states[i], q);
  }

  /**
   Load to save is never interleaved: from the step in which `p` loads, while it neither drops nor
   crashes, the marks on disk stay the ones it loaded until `p` itself publishes.
   */
  lemma {:induction false} LoadToSaveIsAtomic(r: Realisation, states: seq<State>, steps: seq<Step>, i: nat, p: Pid)
    requires Run(r, states, steps) && i < |states| && states[i].PhaseOf(p).Loaded?
    ensures states[i].marks == states[i].PhaseOf(p).marks
    ensures i < |steps| && states[i + 1].marks != states[i].marks ==> steps[i].Publish? && steps[i].p == p
  {
    RunKeepsInv(r, states, steps, i);
    if i < |steps| && steps[i].Publish? {
      assert Next(r, states[i], steps[i], states[i + 1]);
      assert Entitled(r, states[i], p) && Entitled(r, states[i], steps[i].p);
    }
  }

  /** So the marks never decrease over any interleaving of processes, failures and crashes. */
  lemma {:induction false} MarksMonotone(r: Realisation, states: seq<State>, steps: seq<Step>, i: nat, j: nat)
    requires Run(r, states, steps) && i <= j < |states|
    ensures states[i].marks.AtMost(states[j].marks)
    decreases j
  {
    if i < j {
      MarksMonotone(r, states, steps, i, j - 1);
      RunKeepsInv(r, states, steps, j - 1);
      StepKeepsInv(r, states[j - 1], steps[j - 1], states[j]);
    }
  }

  // ---------------------------------------------------------------- when an attempt is refused

  /** A file-lock attempt is refused exactly while some guard is live: a crash leaves nothing stale. */
  lemma {:induction false} FileLockRefusedIffLive(states: seq<State>, steps: seq<Step>, i: nat)
    requires Run(FileLock, states, steps) && i < |steps| && steps[i].Decide?
    ensures states[i + 1].Live(steps[i].p) <==> forall q :: !states[i].Live(q)
  {
    RunKeepsInv(FileLock, states, steps, i);
    if states[i].owner != {} {
      var q :| q in states[i].owner;
      assert states[i].Live(q);
    }
  }

  /** A named object is reported as existing exactly while some process has it open, guard or not. */
  lemma {:induction false} NamedObjectRefusedIffOpen(states: seq<State>, steps: seq<Step>, i: nat)
    requires Run(NamedObject, states, steps) && i < |steps| && steps[i].Open?
    ensures states[i + 1].PhaseOf(steps[i].p) == Opened(false) <==> forall q :: states[i].PhaseOf(q) == Idle
  {
    RunKeepsInv(NamedObject, states, steps, i);
    if states[i].open != {} {
      var q :| q in states[i].open;
      assert states[i].PhaseOf(q) != Idle;
    }
  }

  /** A loser's transient handle can refuse a third process though no guard is live any more. */
  lemma {:induction false} TransientHandleRefuses(marks: TrustState)
    ensures exists states: seq<State>, steps: seq<Step> :: Run(NamedObject, states, steps) && |steps| == 5
                                    && steps[4] == Open(3) && states[5].PhaseOf(3) == Opened(true)
                                    && forall q :: !states[4].Live(q)
  {
    var s0 := Init(marks);
    var s1 := AfterOpen(NamedObject, s0, 1);
    var s2 := AfterDecide(NamedObject, s1, 1);
    var s3 := AfterOpen(NamedObject, s2, 2);
    var s4 := AfterDrop(NamedObject, s3, 1);
    var s5 := AfterOpen(NamedObject, s4, 3);
    assert 2 in s4.open;
    var states, steps := [s0, s1, s2, s3, s4, s5], [Open(1), Decide(1), Open(2), Drop(1), Open(3)];
    assert Run(NamedObject, states, steps);
  }
}
