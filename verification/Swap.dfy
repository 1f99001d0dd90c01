/**
 Replacing one binary that may be running: the bounded retry, and the move-aside swap with its undo.
 Each method equals a function of the disk and the fault schedule; the promises are lemmas about it.
 */
module Swap {
  import opened Files
  import opened Components

  datatype RetryPolicy = RetryPolicy(attempts: nat, backoff: nat) {
    /** Calls a retry may make: the policy's attempts, but always one. */
    function Budget(): (n: nat)
      ensures n >= 1
    {
      if attempts < 1 then 1 else attempts
    }
  }

  datatype InstallOutcome = Installed | Deferred | Failed

  // ---------------------------------------------------------------- retry_rename

  /** What at most `left` tries of the rename return, and how many are made. */
  function Retried(t: Tree, answers: Schedule, tick: nat, left: nat, from: Path): (r: (RenameResult, nat))
    requires left >= 1
    ensures 1 <= r.1 <= left
    decreases left
  {
    var first := Renaming(t, Reply(answers, tick), from);
    if first != InUse || left == 1 then (first, 1)
    else
      var rest := Retried(t, answers, tick + 1, left - 1, from);
      (rest.0, rest.1 + 1)
  }

  /** The linear backoffs slept before the calls after the first, for `calls` calls in all. */
  function Backoffs(backoff: nat, calls: nat): nat {
    if calls <= 1 then 0 else Backoffs(backoff, calls - 1) + backoff * (calls - 1)
  }

  /** After `attempt` in-use answers the whole retry is what is left of it, that many calls later. */
  ghost predicate TriedTo(t: Tree, answers: Schedule, tick: nat, budget: nat, from: Path, attempt: nat)
    requires budget >= 1
  {
    var whole := Retried(t, answers, tick, budget, from);
    if attempt < budget then
      var rest := Retried(t, answers, tick + attempt, budget - attempt, from);
      whole.0 == rest.0 && whole.1 == rest.1 + attempt
    else whole.0 == InUse && whole.1 == attempt
  }

  lemma {:induction false} TriesOn(t: Tree, answers: Schedule, tick: nat, budget: nat, from: Path, attempt: nat)
    requires attempt < budget && TriedTo(t, answers, tick, budget, from, attempt)
    requires attempt + 1 <= budget && Renaming(t, Reply(answers, tick + attempt), from) == InUse
    ensures TriedTo(t, answers, tick, budget, from, attempt + 1)
  {}

  method RetryRename(disk: Disk, policy: RetryPolicy, from: Path, to: Path) returns (r: RenameResult, slept: nat)
    requires disk.Valid()
    modifies disk
    ensures disk.Valid()
    ensures var spec := Retried(old(disk.files), disk.answers, old(disk.tick), policy.Budget(), from);
            r == spec.0 && disk.tick == old(disk.tick) + spec.1 && slept == Backoffs(policy.backoff, spec.1)
    ensures disk.files == if r == Done then Moved(old(disk.files), from, to) else old(disk.files)
    ensures disk.seen == old(disk.seen) + {disk.files}
  {
    slept := 0;
    r := Hard;
    var attempt := 0;
    while attempt < policy.Budget()
      invariant 0 <= attempt <= policy.Budget()
      invariant disk.Valid() && disk.files == old(disk.files) && disk.seen == old(disk.seen)
      invariant disk.tick == old(disk.tick) + attempt
      invariant attempt > 0 ==> r == InUse
      invariant TriedTo(old(disk.files), disk.answers, old(disk.tick), policy.Budget(), from, attempt)
      invariant slept == Backoffs(policy.backoff, if attempt < policy.Budget() then attempt + 1 else attempt)
    {
      r := disk.Rename(from, to);
      if r != InUse {
        return;
      }
      TriesOn(disk.files, disk.answers, old(disk.tick), policy.Budget(), from, attempt);
      if attempt + 1 < policy.attempts && policy.backoff != 0 {
        slept := slept + policy.backoff * (attempt + 1);
      }
      attempt := attempt + 1;
    }
  }

  /** Call `k` is the first that is not in-use, and it succeeds. */
  ghost predicate FirstSuccess(t: Tree, answers: Schedule, tick: nat, k: nat, from: Path) {
    tick <= k && Renaming(t, Reply(answers, k), from) == Done
    && forall j: nat :: tick <= j < k ==> Renaming(t, Reply(answers, j), from) == InUse
  }

  /** The retry succeeds exactly when some call inside the budget succeeds after only in-use answers. */
  lemma {:induction false} RetrySucceedsIff(t: Tree, answers: Schedule, tick: nat, left: nat, from: Path)
    requires left >= 1
    ensures Retried(t, answers, tick, left, from).0 == Done <==>
            exists k: nat :: k < tick + left && FirstSuccess(t, answers, tick, k, from)
    decreases left
  {
    var first := Renaming(t, Reply(answers, tick), from);
    if first == Done {
      assert FirstSuccess(t, answers, tick, tick, from);
    } else if first == InUse && left > 1 {
      RetrySucceedsIff(t, answers, tick + 1, left - 1, from);
      assert Retried(t, answers, tick, left, from).0 == Retried(t, answers, tick + 1, left - 1, from).0;
      if k: nat :| k < tick + left && FirstSuccess(t, answers, tick, k, from) {
        assert FirstSuccess(t, answers, tick + 1, k, from);
      }
      var next := tick + 1;
      if k: nat :| k < tick + left && FirstSuccess(t, answers, next, k, from) {
        assert FirstSuccess(t, answers, tick, k, from);
      }
    } else {
      forall k: nat | k < tick + left
        ensures !FirstSuccess(t, answers, tick, k, from)
      {
        if tick < k { assert Renaming(t, Reply(answers, tick), from) != Done; }
      }
    }
  }

  /** A result of in-use means the whole budget was spent on in-use answers. */
  lemma {:induction false} RetryGivesUpOnlyWhenSpent(t: Tree, answers: Schedule, tick: nat, left: nat, from: Path)
    requires left >= 1
    ensures Retried(t, answers, tick, left, from).0 == InUse ==> Retried(t, answers, tick, left, from).1 == left
    decreases left
  {
    if left > 1 { RetryGivesUpOnlyWhenSpent(t, answers, tick + 1, left - 1, from); }
  }

  /** Total sleep is backoff * n(n-1)/2 for the calls made, so at most that for the budget. */
  lemma {:induction false} BackoffsClosedForm(backoff: nat, calls: nat, budget: nat)
    requires 1 <= calls <= budget
    ensures 2 * Backoffs(backoff, calls) == backoff * (calls * (calls - 1))
    ensures Backoffs(backoff, calls) <= Backoffs(backoff, budget)
    decreases budget, calls
  {
    if calls > 1 {
      BackoffsClosedForm(backoff, calls - 1, calls - 1);
      Triangle(backoff, calls - 1);
    }
    if calls < budget {
      BackoffsClosedForm(backoff, calls, budget - 1);
      ProductIsNat(backoff, budget - 1);
    }
  }

  lemma {:induction false} ProductIsNat(a: nat, b: nat)
    ensures a * b >= 0
  {}

  /** Two triangles side by side grow by two rows. */
  lemma {:induction false} Triangle(backoff: nat, n: nat)
    ensures backoff * (n * (n - 1)) + 2 * (backoff * n) == backoff * ((n + 1) * n)
  {
    assert (n + 1) * n == n * (n - 1) + 2 * n;
    Distributes(backoff, n * (n - 1), 2 * n);
    Doubles(backoff, n);
  }

  lemma {:induction false} Distributes(a: int, b: int, c: int)
    ensures a * (b + c) == a * b + a * c
  {}

  lemma {:induction false} Doubles(a: int, b: int)
    ensures a * (2 * b) == 2 * (a * b)
  {}

  // ---------------------------------------------------------------- rename_into_place

  /** A swap's end: the disk, the primitives used, the outcome, and every state passed through. */
  datatype SwapRun = SwapRun(files: Tree, tick: nat, outcome: InstallOutcome, states: set<Tree>)

  /** Create the parent, clear a stale `.old`, move the target aside if it is there, then place. */
  function Swapped(t: Tree, answers: Schedule, tick: nat, budget: nat, private: Path, dest: Path): SwapRun
    requires budget >= 1
  {
    if !Reply(answers, tick).Go? then
      var t1 := Removed(t, Reply(answers, tick + 1), private);
      SwapRun(t1, tick + 2, Failed, {t, t1})
    else
      var t1 := Removed(t, Reply(answers, tick + 1), dest.WithExtension(SUPERSEDED_EXT));
      SwappedRest(t, t1, answers, tick + 2, budget, private, dest)
  }

  /** The swap from `t`, once a stale `.old` has been dealt with in `t1`. */
  function SwappedRest(t: Tree, t1: Tree, answers: Schedule, tick: nat, budget: nat, private: Path, dest: Path): SwapRun
    requires budget >= 1
  {
    if dest !in t1 then
      var run := Placed(t1, answers, tick, budget, private, dest, false);
      run.(states := run.states + {t})
    else
      var aside := Retried(t1, answers, tick, budget, dest);
      var k := tick + aside.1;
      if aside.0 != Done then
        var t2 := Removed(t1, Reply(answers, k), private);
        SwapRun(t2, k + 1, Deferred, {t, t1, t2})
      else
        var run := Placed(Moved(t1, dest, dest.WithExtension(SUPERSEDED_EXT)), answers, k, budget, private, dest, true);
        run.(states := run.states + {t, t1})
  }

  /** Rename the verified copy in; on failure undo the move-aside. */
  function Placed(t: Tree, answers: Schedule, tick: nat, budget: nat, private: Path, dest: Path,
                  movedAside: bool): SwapRun
    requires budget >= 1
  {
    var old_ := dest.WithExtension(SUPERSEDED_EXT);
    var place := Retried(t, answers, tick, budget, private);
    var k := tick + place.1;
    if place.0 == Done then
      var t1 := Moved(t, private, dest);
      var t2 := Removed(t1, Reply(answers, k), old_);
      SwapRun(t2, k + 1, Installed, {t, t1, t2})
    else
      var t1 := Removed(t, Reply(answers, k), private);
      if !movedAside then SwapRun(t1, k + 1, Deferred, {t, t1})
      else
        var undo := Retried(t1, answers, k + 1, budget, old_);
        if undo.0 == Done then
          var t2 := Moved(t1, old_, dest);
          SwapRun(t2, k + 1 + undo.1, Deferred, {t, t1, t2})
        else SwapRun(t1, k + 1 + undo.1, Failed, {t, t1})
  }

  method RenameIntoPlace(disk: Disk, policy: RetryPolicy, private: Path, dest: Path) returns (outcome: InstallOutcome)
    requires disk.Valid()
    modifies disk
    ensures disk.Valid()
    ensures var run := Swapped(old(disk.files), disk.answers, old(disk.tick), policy.Budget(), private, dest);
            outcome == run.outcome && disk.files == run.files && disk.tick == run.tick
            && old(disk.seen) <= disk.seen <= old(disk.seen) + run.states
    ensures SwapNames(private, dest) ==>
              SwapEnd(old(disk.files), disk.files, outcome, private, dest)
              && forall s :: s in disk.seen ==> s in old(disk.seen) || SwapState(old(disk.files), s, private, dest)
    ensures SwapNames(private, dest) && Quiet(disk.answers) && private in old(disk.files) ==> outcome == Installed
  {
    ghost var t, k := disk.files, disk.tick;
    if SwapNames(private, dest) {
      SwapIsSafe(t, disk.answers, k, policy.Budget(), private, dest);
      if Quiet(disk.answers) && private in t {
        QuietSwapInstalls(t, disk.answers, k, policy.Budget(), private, dest);
      }
    }
    outcome := Swap(disk, policy, private, dest);
  }

  /** The body of the replace, equal to its specification function. */
  method Swap(disk: Disk, policy: RetryPolicy, private: Path, dest: Path) returns (outcome: InstallOutcome)
    requires disk.Valid()
    modifies disk
    ensures disk.Valid()
    ensures var run := Swapped(old(disk.files), disk.answers, old(disk.tick), policy.Budget(), private, dest);
            outcome == run.outcome && disk.files == run.files && disk.tick == run.tick
            && old(disk.seen) <= disk.seen <= old(disk.seen) + run.states
  {
    var ok := disk.Perform();
    if !ok {
      var _ := disk.Remove(private);
      return Failed;
    }
    var superseded := dest.WithExtension(SUPERSEDED_EXT);
    ghost var t := disk.files;
    var _ := disk.Remove(superseded);
    outcome := MoveAsideAndPlace(disk, policy, private, dest, t);
  }

  /** Move the target aside if it is there, then place. */
  method MoveAsideAndPlace(disk: Disk, policy: RetryPolicy, private: Path, dest: Path, ghost t: Tree)
    returns (outcome: InstallOutcome)
    requires disk.Valid()
    modifies disk
    ensures disk.Valid()
    ensures var run := SwappedRest(t, old(disk.files), disk.answers, old(disk.tick), policy.Budget(), private, dest);
            outcome == run.outcome && disk.files == run.files && disk.tick == run.tick
            && old(disk.seen) <= disk.seen <= old(disk.seen) + run.states
  {
    var superseded := dest.WithExtension(SUPERSEDED_EXT);
    var movedAside := dest in disk.files;
    if movedAside {
      var aside, _ := RetryRename(disk, policy, dest, superseded);
      if aside != Done {
        var _ := disk.Remove(private);
        return Deferred;
      }
    }
    outcome := PlaceVerified(disk, policy, private, dest, movedAside);
  }

  /** The second half of the replace: rename the copy in, or put the moved-aside original back. */
  method PlaceVerified(disk: Disk, policy: RetryPolicy, private: Path, dest: Path, movedAside: bool)
    returns (outcome: InstallOutcome)
    requires disk.Valid()
    modifies disk
    ensures disk.Valid()
    ensures var run :=
              Placed(old(disk.files), disk.answers, old(disk.tick), policy.Budget(), private, dest, movedAside);
            outcome == run.outcome && disk.files == run.files && disk.tick == run.tick
            && old(disk.seen) <= disk.seen <= old(disk.seen) + run.states
  {
    var superseded := dest.WithExtension(SUPERSEDED_EXT);
    var placed, _ := RetryRename(disk, policy, private, dest);
    if placed == Done {
      var _ := disk.Remove(superseded);
      return Installed;
    }
    var _ := disk.Remove(private);
    if !movedAside {
      return Deferred;
    }
    var undone, _ := RetryRename(disk, policy, superseded, dest);
    outcome := if undone == Done then Deferred else Failed;
  }

  /** The three names the swap works with are different files. */
  predicate SwapNames(private: Path, dest: Path) {
    private != dest && dest != dest.WithExtension(SUPERSEDED_EXT) && private != dest.WithExtension(SUPERSEDED_EXT)
  }

  function SwapPaths(private: Path, dest: Path): set<Path> {
    {private, dest, dest.WithExtension(SUPERSEDED_EXT)}
  }

  /** The destination keeps its old bytes, or is absent with them whole under `.old`, or has all the new ones. */
  ghost predicate SwapState(o: Tree, s: Tree, private: Path, dest: Path) {
    var old_ := dest.WithExtension(SUPERSEDED_EXT);
    && SameOutside(o, s, SwapPaths(private, dest))
    && (private in s ==> private in o && s[private] == o[private])
    && (|| SameAt(o, s, dest)
        || (dest in o && dest !in s && old_ in s && s[old_] == o[dest])
        || (private in o && dest in s && s[dest] == o[private]))
  }

  /** What each outcome means on return: new, unchanged, or unchanged-or-recoverable. */
  ghost predicate SwapEnd(t: Tree, after: Tree, outcome: InstallOutcome, private: Path, dest: Path) {
    var old_ := dest.WithExtension(SUPERSEDED_EXT);
    && SwapState(t, after, private, dest)
    && (outcome == Installed ==>
          private in t && private !in after && dest in after && after[dest] == t[private])
    && (outcome == Deferred ==> SameAt(t, after, dest))
    && (outcome == Failed ==>
          SameAt(t, after, dest) || (dest in t && dest !in after && old_ in after && after[old_] == t[dest]))
  }

  /** Where the second half of the swap starts: the destination cleared, its old bytes (if any) set aside. */
  ghost predicate Cleared(o: Tree, t: Tree, private: Path, dest: Path, movedAside: bool) {
    var old_ := dest.WithExtension(SUPERSEDED_EXT);
    && SameOutside(o, t, SwapPaths(private, dest)) && SameAt(o, t, private) && dest !in t
    && (movedAside <==> dest in o) && (movedAside ==> old_ in t && t[old_] == o[dest])
  }

  lemma {:induction false} PlacedIsSafe(o: Tree, t: Tree, answers: Schedule, tick: nat, budget: nat, private: Path,
                                        dest: Path, movedAside: bool)
    requires budget >= 1 && SwapNames(private, dest) && Cleared(o, t, private, dest, movedAside)
    ensures var run := Placed(t, answers, tick, budget, private, dest, movedAside);
            run.files in run.states && SwapEnd(o, run.files, run.outcome, private, dest)
            && forall s :: s in run.states ==> SwapState(o, s, private, dest)
  {}

  lemma {:induction false} ClearingIsSafe(t: Tree, a: Answer, private: Path, dest: Path)
    requires SwapNames(private, dest)
    ensures var t1 := Removed(t, a, dest.WithExtension(SUPERSEDED_EXT));
            && SwapState(t, t, private, dest) && SwapState(t, t1, private, dest)
            && SameAt(t, t1, dest) && SameAt(t, t1, private) && SameOutside(t, t1, {dest.WithExtension(SUPERSEDED_EXT)})
  {}

  /** Giving up before the destination is touched only drops the copy. */
  lemma {:induction false} GivingUpIsSafe(o: Tree, t: Tree, a: Answer, private: Path, dest: Path)
    requires SwapNames(private, dest) && SwapState(o, t, private, dest) && SameAt(o, t, dest)
    ensures var t1 := Removed(t, a, private);
            && SwapState(o, t1, private, dest)
            && SwapEnd(o, t1, Deferred, private, dest) && SwapEnd(o, t1, Failed, private, dest)
  {}

  lemma {:induction false} MovingAsideClears(o: Tree, t: Tree, private: Path, dest: Path)
    requires SwapNames(private, dest) && dest in t && SameOutside(o, t, {dest.WithExtension(SUPERSEDED_EXT)})
    requires SameAt(o, t, dest) && SameAt(o, t, private)
    ensures Cleared(o, Moved(t, dest, dest.WithExtension(SUPERSEDED_EXT)), private, dest, true)
  {
    var after := Moved(t, dest, dest.WithExtension(SUPERSEDED_EXT));
    forall p | p !in SwapPaths(private, dest) ensures SameAt(o, after, p) {
      assert SameAt(o, t, p);
    }
  }

  /** Every state of the run is a swap state, the last one with the meaning its outcome has. */
  ghost predicate SafeRun(o: Tree, run: SwapRun, private: Path, dest: Path) {
    run.files in run.states && SwapEnd(o, run.files, run.outcome, private, dest)
    && forall s :: s in run.states ==> SwapState(o, s, private, dest)
  }

  lemma {:induction false} EarlierStates(o: Tree, run: SwapRun, more: set<Tree>, private: Path, dest: Path)
    requires SafeRun(o, run, private, dest) && forall s :: s in more ==> SwapState(o, s, private, dest)
    ensures SafeRun(o, run.(states := run.states + more), private, dest)
  {}

  lemma {:induction false} FreshPlacementIsSafe(t: Tree, t1: Tree, answers: Schedule, tick: nat, budget: nat,
                                                private: Path, dest: Path)
    requires budget >= 1 && SwapNames(private, dest) && SameOutside(t, t1, {dest.WithExtension(SUPERSEDED_EXT)})
    requires SwapState(t, t, private, dest) && SameAt(t, t1, dest) && SameAt(t, t1, private) && dest !in t1
    ensures SafeRun(t, SwappedRest(t, t1, answers, tick, budget, private, dest), private, dest)
  {
    var run := Placed(t1, answers, tick, budget, private, dest, false);
    PlacedIsSafe(t, t1, answers, tick, budget, private, dest, false);
    EarlierStates(t, run, {t}, private, dest);
    assert SwappedRest(t, t1, answers, tick, budget, private, dest) == run.(states := run.states + {t});
  }

  lemma {:induction false} ReplacementIsSafe(t: Tree, t1: Tree, answers: Schedule, tick: nat, budget: nat,
                                             private: Path, dest: Path)
    requires budget >= 1 && SwapNames(private, dest) && SameOutside(t, t1, {dest.WithExtension(SUPERSEDED_EXT)})
    requires SwapState(t, t, private, dest) && SwapState(t, t1, private, dest) && SameAt(t, t1, dest)
    requires SameAt(t, t1, private)
    requires dest in t1 && Retried(t1, answers, tick, budget, dest).0 == Done
    ensures SafeRun(t, SwappedRest(t, t1, answers, tick, budget, private, dest), private, dest)
  {
    var old_, k := dest.WithExtension(SUPERSEDED_EXT), tick + Retried(t1, answers, tick, budget, dest).1;
    var run := Placed(Moved(t1, dest, old_), answers, k, budget, private, dest, true);
    MovingAsideClears(t, t1, private, dest);
    PlacedIsSafe(t, Moved(t1, dest, old_), answers, k, budget, private, dest, true);
    EarlierStates(t, run, {t, t1}, private, dest);
    assert SwappedRest(t, t1, answers, tick, budget, private, dest) == run.(states := run.states + {t, t1});
  }

  lemma {:induction false} BlockedIsSafe(t: Tree, t1: Tree, answers: Schedule, tick: nat, budget: nat, private: Path,
                                         dest: Path)
    requires budget >= 1 && SwapNames(private, dest) && SwapState(t, t, private, dest)
    requires SwapState(t, t1, private, dest) && SameAt(t, t1, dest)
    requires dest in t1 && Retried(t1, answers, tick, budget, dest).0 != Done
    ensures SafeRun(t, SwappedRest(t, t1, answers, tick, budget, private, dest), private, dest)
  {
    GivingUpIsSafe(t, t1, Reply(answers, tick + Retried(t1, answers, tick, budget, dest).1), private, dest);
  }

  /**
   At every crash point, under every fault schedule, the swap's state is one of the three; and on return
   the outcome means what it says.
   */
  lemma {:induction false} SwapIsSafe(t: Tree, answers: Schedule, tick: nat, budget: nat, private: Path, dest: Path)
    requires budget >= 1 && SwapNames(private, dest)
    ensures SafeRun(t, Swapped(t, answers, tick, budget, private, dest), private, dest)
  {
    var t1 := Removed(t, Reply(answers, tick + 1), dest.WithExtension(SUPERSEDED_EXT));
    ClearingIsSafe(t, Reply(answers, tick + 1), private, dest);
    if !Reply(answers, tick).Go? {
      GivingUpIsSafe(t, t, Reply(answers, tick + 1), private, dest);
    } else if dest !in t1 {
      FreshPlacementIsSafe(t, t1, answers, tick + 2, budget, private, dest);
    } else if Retried(t1, answers, tick + 2, budget, dest).0 == Done {
      ReplacementIsSafe(t, t1, answers, tick + 2, budget, private, dest);
    } else {
      BlockedIsSafe(t, t1, answers, tick + 2, budget, private, dest);
    }
  }

  /** With the copy there and no fault, the swap installs. */
  lemma {:induction false} QuietSwapInstalls(t: Tree, answers: Schedule, tick: nat, budget: nat, private: Path,
                                             dest: Path)
    requires budget >= 1 && SwapNames(private, dest) && private in t && Quiet(answers)
    ensures Swapped(t, answers, tick, budget, private, dest).outcome == Installed
  {}

  /** The old bytes are whole under one of the names the swap works with. */
  ghost predicate StillWhole(s: Tree, bytes: Bytes, private: Path, dest: Path) {
    exists p :: p in SwapPaths(private, dest) && p in s && s[p] == bytes
  }

  /**
   What a double fault left under `.old` (the destination absent) is protected within that call only. In
   the next call it is destroyed unless nothing is done at all, or the clear is refused and, if the
   placement succeeds, the final removal is refused too. So a call that places nothing can still lose it.
   */
  lemma {:induction false} OldCopySurvivesIff(t: Tree, answers: Schedule, tick: nat, budget: nat, private: Path,
                                              dest: Path)
    requires budget >= 1 && SwapNames(private, dest)
    requires dest !in t && dest.WithExtension(SUPERSEDED_EXT) in t
    requires private in t ==> t[private] != t[dest.WithExtension(SUPERSEDED_EXT)]
    ensures var old_ := dest.WithExtension(SUPERSEDED_EXT);
            var place := Retried(t, answers, tick + 2, budget, private);
            StillWhole(Swapped(t, answers, tick, budget, private, dest).files, t[old_], private, dest) <==>
            || !Reply(answers, tick).Go?
            || (!Reply(answers, tick + 1).Go? && (place.0 == Done ==> !Reply(answers, tick + 2 + place.1).Go?))
  {
    var old_ := dest.WithExtension(SUPERSEDED_EXT);
    var run := Swapped(t, answers, tick, budget, private, dest);
    SwapIsSafe(t, answers, tick, budget, private, dest);
    assert old_ in SwapPaths(private, dest);
    assert StillWhole(run.files, t[old_], private, dest) <==> old_ in run.files && run.files[old_] == t[old_];
  }
}
