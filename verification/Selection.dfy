/** Choosing the build variant this host can load, from private copies whose digests were checked. */
module Selection {
  import opened Files
  import opened Hashing
  import opened Components
  import opened Install

  datatype Loadability = Loadable | IsIndeterminate | Unloadable | WrongMachine {
    predicate Refusal() { Unloadable? || WrongMachine? }
  }

  datatype Selection = Selected(expectedDigest: string, indeterminate: bool) | AllUnloadable

  /** Which variant a list of verdicts picks: the first loadable, else the first indeterminate, else none. */
  datatype Choice = Pick(idx: nat) | RefuseAll

  function FirstOf(verdicts: seq<Loadability>, want: Loadability): (i: nat)
    ensures i <= |verdicts|
    ensures i < |verdicts| ==> verdicts[i] == want
    ensures forall j :: 0 <= j < i ==> verdicts[j] != want
  {
    if verdicts == [] || verdicts[0] == want then 0 else 1 + FirstOf(verdicts[1..], want)
  }

  function Choose(verdicts: seq<Loadability>): Choice {
    var loadable := FirstOf(verdicts, Loadable);
    var fallback := FirstOf(verdicts, IsIndeterminate);
    if loadable < |verdicts| then Pick(loadable)
    else if fallback < |verdicts| then Pick(fallback)
    else RefuseAll
  }

  function Verdicts(loadable: Bytes -> Loadability, staged: seq<Bytes>): (v: seq<Loadability>)
    ensures |v| == |staged|
  {
    seq(|staged|, i requires 0 <= i < |staged| => loadable(staged[i]))
  }

  /**
   `staged` is what was copied, verified and inspected for each variant in turn, up to the first loadable
   one; the result follows from the verdicts on exactly those bytes. A fallback is staged a second time,
   and staging may have changed by then: what is kept is the judged content, or a collision with it.
   */
  ghost predicate SelectionEnd(h: HashFn, loadable: Bytes -> Loadability, variants: seq<PlannedVariant>, private: Path,
                               after: Tree, sel: Selection, staged: seq<Bytes>) {
    var choice := Choose(Verdicts(loadable, staged));
    && |staged| <= |variants|
    && (forall j :: 0 <= j < |staged| ==> Verifies(h, variants[j].expectedDigest, staged[j]))
    && (|staged| < |variants| ==> staged != [] && loadable(staged[|staged| - 1]) == Loadable)
    && match sel
       case AllUnloadable => choice == RefuseAll && |staged| == |variants|
       case Selected(digest, indeterminate) =>
         && choice.Pick? && choice.idx < |staged|
         && digest == variants[choice.idx].expectedDigest
         && (indeterminate <==> loadable(staged[choice.idx]) == IsIndeterminate)
         && private in after && Verifies(h, digest, after[private])
         && (after[private] == staged[choice.idx]
               || (indeterminate && Collision(h, staged[choice.idx], after[private])))
  }

  /** Some variant's verified bytes were not refused: loadable, or beyond this host's means to judge. */
  predicate SomeUsable(loadable: Bytes -> Loadability, staged: seq<Bytes>) {
    exists j :: 0 <= j < |staged| && !loadable(staged[j]).Refusal()
  }

  /** The component is refused exactly when every variant is; a fallback is used only with no loadable one. */
  lemma {:induction false} RefusedMeansEveryVariant(h: HashFn, loadable: Bytes -> Loadability,
                                                    variants: seq<PlannedVariant>, private: Path, after: Tree,
                                                    sel: Selection, staged: seq<Bytes>)
    requires SelectionEnd(h, loadable, variants, private, after, sel, staged)
    ensures sel.AllUnloadable? <==> !SomeUsable(loadable, staged)
    ensures sel.AllUnloadable? ==> |staged| == |variants|
    ensures sel.Selected? && sel.indeterminate ==>
              |staged| == |variants| && forall j :: 0 <= j < |staged| ==> loadable(staged[j]) != Loadable
  {
    var v := Verdicts(loadable, staged);
    if sel.AllUnloadable? {
      forall j | 0 <= j < |staged| ensures loadable(staged[j]).Refusal() {
        assert v[j] != Loadable && v[j] != IsIndeterminate;
      }
    } else if sel.indeterminate {
      assert FirstOf(v, Loadable) == |v|;
      forall j | 0 <= j < |staged| ensures loadable(staged[j]) != Loadable {
        assert v[j] != Loadable;
      }
    }
  }

  /** The adversary's staging area: the n-th attempt to read it, made for `asked[n]`, meets `feeds[n]`. */
  class Staging {
    const feeds: seq<Feed>
    var asked: seq<PlannedVariant>

    constructor (feeds: seq<Feed>)
      ensures this.feeds == feeds && asked == []
    {
      this.feeds, this.asked := feeds, [];
    }
  }

  /** Past the end of `feeds` there is nothing left to open. */
  function FeedAt(feeds: seq<Feed>, n: nat): Feed {
    if n < |feeds| then feeds[n] else Feed(true, false, [])
  }

  /** This read of staging delivers the content of variant `v`. */
  ghost predicate Serves(h: HashFn, feed: Feed, v: PlannedVariant) {
    feed.contained && feed.opens && Streamed(feed.chunks).Some?
        && Verifies(h, v.expectedDigest, Streamed(feed.chunks).value)
  }

  /** The last read of staging did not deliver the variant it was asked for. */
  ghost predicate Misserved(h: HashFn, feeds: seq<Feed>, asked: seq<PlannedVariant>) {
    asked != [] && !Serves(h, FeedAt(feeds, |asked| - 1), asked[|asked| - 1])
  }

  /** Relative to `o`, only the private copy has ever been touched. */
  ghost predicate OnlyPrivate(o: Tree, seen0: set<Tree>, files: Tree, seen: set<Tree>, private: Path) {
    && seen0 <= seen && SameOutside(o, files, {private})
    && forall s :: s in seen ==> s in seen0 || SameOutside(o, s, {private})
  }

  /** Stage a variant from whatever the staging area serves next. */
  method StageNext(disk: Disk, staging: Staging, h: HashFn, v: PlannedVariant, private: Path, executable: bool,
                   ghost o: Tree, ghost seen0: set<Tree>) returns (r: Result<()>)
    requires disk.Valid() && OnlyPrivate(o, seen0, disk.files, disk.seen, private)
    modifies disk, staging
    ensures disk.Valid() && OnlyPrivate(o, seen0, disk.files, disk.seen, private)
    ensures r.Ok? ==> private in disk.files && Verifies(h, v.expectedDigest, disk.files[private])
    ensures r.Err? && Quiet(disk.answers) ==> Misserved(h, staging.feeds, staging.asked)
  {
    ghost var mid, before := disk.files, disk.seen;
    r := StageVariant(disk, h, FeedAt(staging.feeds, |staging.asked|), private, v.expectedDigest, executable);
    staging.asked := staging.asked + [v];
    FramesCompose(o, mid, disk.files, {private});
    forall s | s in disk.seen && s !in before
      ensures SameOutside(o, s, {private})
    {
      FramesCompose(o, mid, s, {private});
    }
  }

  /** The scan so far: the content judged for each variant, none loadable, and the first indeterminate one. */
  ghost predicate Scanned(h: HashFn, loadable: Bytes -> Loadability, variants: seq<PlannedVariant>, private: Path,
                          t: Tree, staged: seq<Bytes>, fallback: Option<nat>) {
    var v := Verdicts(loadable, staged);
    && |staged| <= |variants|
    && (forall j :: 0 <= j < |staged| ==> Verifies(h, variants[j].expectedDigest, staged[j]))
    && FirstOf(v, Loadable) == |staged|
    && fallback == (if FirstOf(v, IsIndeterminate) < |staged| then Some(FirstOf(v, IsIndeterminate)) else None)
    && (staged != [] ==> private in t && t[private] == staged[|staged| - 1])
  }

  /** A loadable variant ends the scan: it is the choice. */
  lemma {:induction false} ScanEnds(h: HashFn, loadable: Bytes -> Loadability, variants: seq<PlannedVariant>,
                                    private: Path, t: Tree, now: Tree, staged: seq<Bytes>, fallback: Option<nat>)
    requires Scanned(h, loadable, variants, private, t, staged, fallback) && |staged| < |variants|
    requires private in now && Verifies(h, variants[|staged|].expectedDigest, now[private])
    requires loadable(now[private]) == Loadable
    ensures SelectionEnd(h, loadable, variants, private, now, Selected(variants[|staged|].expectedDigest, false),
                         staged + [now[private]])
  {
    FirstOfSnoc(Verdicts(loadable, staged), Loadable, Loadable);
    assert Verdicts(loadable, staged + [now[private]]) == Verdicts(loadable, staged) + [Loadable];
  }

  /** Any other goes on with it behind the scan, remembered if it is the first indeterminate one. */
  lemma {:induction false} ScanNext(h: HashFn, loadable: Bytes -> Loadability, variants: seq<PlannedVariant>,
                                    private: Path, t: Tree, now: Tree, staged: seq<Bytes>, fallback: Option<nat>)
    requires Scanned(h, loadable, variants, private, t, staged, fallback) && |staged| < |variants|
    requires private in now && Verifies(h, variants[|staged|].expectedDigest, now[private])
    requires loadable(now[private]) != Loadable
    ensures Scanned(h, loadable, variants, private, now, staged + [now[private]],
                    if loadable(now[private]) == IsIndeterminate && fallback.None? then Some(|staged|) else fallback)
  {
    var v, verdict := Verdicts(loadable, staged), loadable(now[private]);
    FirstOfSnoc(v, verdict, Loadable);
    FirstOfSnoc(v, verdict, IsIndeterminate);
    assert Verdicts(loadable, staged + [now[private]]) == v + [verdict];
  }

  method SelectLoadableVariant(disk: Disk, staging: Staging, h: HashFn, loadable: Bytes -> Loadability,
                               variants: seq<PlannedVariant>, private: Path, executable: bool)
    returns (r: Result<Selection>, ghost staged: seq<Bytes>)
    requires disk.Valid()
    modifies disk, staging
    ensures disk.Valid() && OnlyPrivate(old(disk.files), old(disk.seen), disk.files, disk.seen, private)
    ensures r.Ok? ==> SelectionEnd(h, loadable, variants, private, disk.files, r.value, staged)
    ensures r.Err? && Quiet(disk.answers) ==> Misserved(h, staging.feeds, staging.asked)
  {
    ghost var o, seen0 := disk.files, disk.seen;
    var idx := 0;
    var fallback: Option<nat> := None;
    staged := [];
    while idx < |variants|
      invariant 0 <= idx <= |variants| && |staged| == idx
      invariant disk.Valid() && OnlyPrivate(o, seen0, disk.files, disk.seen, private)
      invariant Scanned(h, loadable, variants, private, disk.files, staged, fallback)
    {
      ghost var t := disk.files;
      var copied := StageNext(disk, staging, h, variants[idx], private, executable, o, seen0);
      if copied.Err? {
        r := Err(copied.error);
        return;
      }
      var verdict := loadable(disk.files[private]);
      if verdict == Loadable {
        ScanEnds(h, loadable, variants, private, t, disk.files, staged, fallback);
      } else {
        ScanNext(h, loadable, variants, private, t, disk.files, staged, fallback);
      }
      staged := staged + [disk.files[private]];
      if verdict == Loadable {
        r := Ok(Selected(variants[idx].expectedDigest, false));
        return;
      }
      if verdict == IsIndeterminate && fallback.None? {
        fallback := Some(idx);
      }
      idx := idx + 1;
    }
    if fallback.None? {
      r := Ok(AllUnloadable);
      return;
    }
    r := UseFallback(disk, staging, h, loadable, variants, private, executable, fallback.value, staged, o, seen0);
  }

  /** Fall back to the first indeterminate variant, staging it again if a later one overwrote it. */
  method UseFallback(disk: Disk, staging: Staging, h: HashFn, loadable: Bytes -> Loadability,
                     variants: seq<PlannedVariant>, private: Path, executable: bool, first: nat,
                     ghost staged: seq<Bytes>, ghost o: Tree, ghost seen0: set<Tree>)
    returns (r: Result<Selection>)
    requires disk.Valid() && OnlyPrivate(o, seen0, disk.files, disk.seen, private)
    requires Scanned(h, loadable, variants, private, disk.files, staged, Some(first)) && |staged| == |variants|
    modifies disk, staging
    ensures disk.Valid() && OnlyPrivate(o, seen0, disk.files, disk.seen, private)
    ensures r.Ok? ==> SelectionEnd(h, loadable, variants, private, disk.files, r.value, staged)
    ensures r.Err? && Quiet(disk.answers) ==> Misserved(h, staging.feeds, staging.asked)
  {
    assert Verdicts(loadable, staged)[first] == IsIndeterminate;
    if first != |variants| - 1 {
      var copied := StageNext(disk, staging, h, variants[first], private, executable, o, seen0);
      if copied.Err? {
        r := Err(copied.error);
        return;
      }
      GateDeterminesContent(h, variants[first].expectedDigest, staged[first], disk.files[private]);
    }
    r := Ok(Selected(variants[first].expectedDigest, true));
  }

  lemma {:induction false} FirstOfSnoc(verdicts: seq<Loadability>, last: Loadability, want: Loadability)
    ensures FirstOf(verdicts + [last], want) ==
            if FirstOf(verdicts, want) < |verdicts| then FirstOf(verdicts, want)
            else if last == want then |verdicts| else |verdicts| + 1
  {
    var i, k := FirstOf(verdicts, want), FirstOf(verdicts + [last], want);
    assert forall j :: 0 <= j < |verdicts| ==> (verdicts + [last])[j] == verdicts[j];
    assert (verdicts + [last])[|verdicts|] == last;
    if i < |verdicts| { assert (verdicts + [last])[i] == want; }
    if k < |verdicts| { assert (verdicts + [last])[k] == verdicts[k]; }
  }
}
