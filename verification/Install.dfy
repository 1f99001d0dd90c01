/**
 Applying one artifact: copy-and-hash into a private file, install it, and refresh the aliases. The
 staging area belongs to the worker, so every read from it returns whatever the worker chose to serve.
 */
module Install {
  import opened Files
  import opened Hashing
  import opened Components
  import opened Swap

  /**
   What one attempt to read a staged file meets: whether its path resolves inside the staging
   directory, whether it opens, and the result of each read. A worker rewriting the file between
   reads is just another list of reads.
   */
  datatype Feed = Feed(contained: bool, opens: bool, chunks: seq<Option<Bytes>>)

  /** The bytes a sequence of reads delivers before the empty read that ends it; `None` on a read error. */
  function Streamed(chunks: seq<Option<Bytes>>): Option<Bytes> {
    if chunks == [] then Some([])
    else if chunks[0].None? then None
    else if chunks[0].value == [] then Some([])
    else
      var rest := Streamed(chunks[1..]);
      if rest.None? then None else Some(chunks[0].value + rest.value)
  }

  /** The signed digest admits these bytes. */
  predicate Verifies(h: HashFn, expected: string, b: Bytes) {
    VerifySha256(expected, h.Of(b))
  }

  /** What staging `feed` into `private` means for the result and for the private copy. */
  ghost predicate Staged(h: HashFn, feed: Feed, expected: string, private: Path, after: Tree, r: Result<()>) {
    && (r.Ok? ==> feed.contained && feed.opens && private in after
                  && Streamed(feed.chunks) == Some(after[private]) && Verifies(h, expected, after[private]))
    && (r == Err(StagingReverifyFailed) ==>
          Streamed(feed.chunks).Some? && !Verifies(h, expected, Streamed(feed.chunks).value))
    && (r == Err(StagedPathEscapesStaging) <==> !feed.contained)
  }

  /** With no disk fault, staging succeeds exactly on a contained, readable feed whose bytes verify. */
  ghost predicate StagedQuietly(h: HashFn, feed: Feed, expected: string, private: Path, after: Tree, r: Result<()>) {
    && (r.Ok? <==> feed.contained && feed.opens && Streamed(feed.chunks).Some?
                   && Verifies(h, expected, Streamed(feed.chunks).value))
    && (r == Err(StagingReverifyFailed) ==> private !in after)
  }

  method StageVariant(disk: Disk, h: HashFn, feed: Feed, private: Path, expected: string, executable: bool)
    returns (r: Result<()>)
    requires disk.Valid()
    modifies disk
    ensures disk.Valid() && old(disk.seen) <= disk.seen
    ensures Staged(h, feed, expected, private, disk.files, r)
    ensures Quiet(disk.answers) ==> StagedQuietly(h, feed, expected, private, disk.files, r)
    ensures SameOutside(old(disk.files), disk.files, {private})
    ensures forall s :: s in disk.seen ==> s in old(disk.seen) || SameOutside(old(disk.files), s, {private})
  {
    if !feed.contained {
      return Err(StagedPathEscapesStaging);
    }
    r := StageAndVerifyPrivate(disk, h, feed, private, expected, executable);
  }

  /** Stream the staged bytes once: each chunk is hashed and written from the same buffer. */
  method StageAndVerifyPrivate(disk: Disk, h: HashFn, feed: Feed, private: Path, expected: string, executable: bool)
    returns (r: Result<()>)
    requires disk.Valid() && feed.contained
    modifies disk
    ensures disk.Valid() && old(disk.seen) <= disk.seen
    ensures Staged(h, feed, expected, private, disk.files, r)
    ensures Quiet(disk.answers) ==> StagedQuietly(h, feed, expected, private, disk.files, r)
    ensures SameOutside(old(disk.files), disk.files, {private})
    ensures forall s :: s in disk.seen ==> s in old(disk.seen) || SameOutside(old(disk.files), s, {private})
  {
    var ok := disk.Perform();
    if !ok || !feed.opens {
      return Err(Io);
    }
    ok := disk.Create(private);
    if !ok {
      return Err(Io);
    }
    var state := CopyAndHash(disk, h, feed.chunks, private);
    if state.None? {
      return Err(Io);
    }
    ok := disk.Perform();
    if !ok {
      return Err(Io);
    }
    if executable {
      ok := disk.Perform();
      if !ok {
        return Err(Io);
      }
    }
    if !VerifySha256(expected, h.finish(state.value)) {
      var _ := disk.Remove(private);
      return Err(StagingReverifyFailed);
    }
    return Ok(());
  }

  /** The loop is at read `i` with `written` behind it: that and what is still to come make the whole stream. */
  ghost predicate StreamedTo(chunks: seq<Option<Bytes>>, i: nat, written: Bytes) {
    && i <= |chunks|
    && var rest := Streamed(chunks[i..]);
       Streamed(chunks) == if rest.None? then None else Some(written + rest.value)
  }

  lemma {:induction false} StreamStarts(chunks: seq<Option<Bytes>>)
    ensures StreamedTo(chunks, 0, [])
  {
    assert chunks[0..] == chunks;
    if Streamed(chunks).Some? { assert [] + Streamed(chunks).value == Streamed(chunks).value; }
  }

  lemma {:induction false} StreamGoesOn(chunks: seq<Option<Bytes>>, i: nat, written: Bytes)
    requires i < |chunks| && StreamedTo(chunks, i, written) && chunks[i].Some? && chunks[i].value != []
    ensures StreamedTo(chunks, i + 1, written + chunks[i].value)
  {
    assert chunks[i..][0] == chunks[i] && chunks[i..][1..] == chunks[i + 1..];
    var rest := Streamed(chunks[i + 1..]);
    if rest.Some? { assert written + (chunks[i].value + rest.value) == (written + chunks[i].value) + rest.value; }
  }

  lemma {:induction false} StreamEnds(chunks: seq<Option<Bytes>>, i: nat, written: Bytes)
    requires StreamedTo(chunks, i, written)
    ensures i < |chunks| && chunks[i].None? ==> Streamed(chunks).None?
    ensures i == |chunks| || chunks[i] == Some([]) ==> Streamed(chunks) == Some(written)
  {
    if i < |chunks| { assert chunks[i..][0] == chunks[i]; }
    assert written + [] == written;
  }

  /** The copy loop: one buffer feeds the private file and the hasher, until an empty read. */
  method CopyAndHash(disk: Disk, h: HashFn, chunks: seq<Option<Bytes>>, private: Path) returns (state: Option<int>)
    requires disk.Valid() && private in disk.files && disk.files[private] == []
    modifies disk
    ensures disk.Valid() && old(disk.seen) <= disk.seen
    ensures state.Some? ==> Streamed(chunks).Some? && state.value == h.Absorb(h.init, Streamed(chunks).value)
                            && disk.files == old(disk.files)[private := Streamed(chunks).value]
    ensures Quiet(disk.answers) && Streamed(chunks).Some? ==> state.Some?
    ensures SameOutside(old(disk.files), disk.files, {private})
    ensures forall s :: s in disk.seen ==> s in old(disk.seen) || SameOutside(old(disk.files), s, {private})
  {
    var hashed, i := h.init, 0;
    ghost var written: Bytes := [];
    ghost var before := disk.files;
    StreamStarts(chunks);
    while i < |chunks|
      invariant 0 <= i <= |chunks| && StreamedTo(chunks, i, written)
      invariant disk.Valid() && old(disk.seen) <= disk.seen
      invariant disk.files == before[private := written]
      invariant hashed == h.Absorb(h.init, written)
      invariant forall s :: s in disk.seen ==> s in old(disk.seen) || SameOutside(before, s, {private})
    {
      StreamEnds(chunks, i, written);
      if chunks[i].None? {
        return None;
      }
      var chunk := chunks[i].value;
      if chunk == [] {
        break;
      }
      h.AbsorbConcat(h.init, written, chunk);
      hashed := h.Absorb(hashed, chunk);
      var ok := disk.Append(private, chunk);
      if !ok {
        return None;
      }
      assert chunk[..|chunk|] == chunk;
      StreamGoesOn(chunks, i, written);
      written := written + chunk;
      i := i + 1;
    }
    StreamEnds(chunks, i, written);
    state := Some(hashed);
  }

  // ---------------------------------------------------------------- aliases

  /** Copy the primary's bytes beside an alias. */
  method CopyVerifiedBytes(disk: Disk, source: Path, destPrivate: Path) returns (ok: bool)
    requires disk.Valid() && source != destPrivate
    modifies disk
    ensures disk.Valid() && old(disk.seen) <= disk.seen
    ensures ok ==> source in old(disk.files) && disk.files == old(disk.files)[destPrivate := old(disk.files)[source]]
    ensures Quiet(disk.answers) && source in old(disk.files) ==> ok
    ensures SameOutside(old(disk.files), disk.files, {destPrivate})
    ensures forall s :: s in disk.seen ==> s in old(disk.seen) || SameOutside(old(disk.files), s, {destPrivate})
  {
    ok := disk.Perform();
    if !ok { return; }
    var bytes := disk.Read(source);
    if bytes.None? { return false; }
    assert bytes.value[..|bytes.value|] == bytes.value;
    ok := disk.Write(destPrivate, bytes.value);
    if !ok { return; }
    ok := disk.Perform();
  }

  /** The binary is gone from its place, and its old bytes are whole under `.old`. */
  ghost predicate SetAside(o: Tree, s: Tree, m: Path) {
    m in o && m !in s && m.WithExtension(SUPERSEDED_EXT) in s && s[m.WithExtension(SUPERSEDED_EXT)] == o[m]
  }

  /** A binary being replaced is never lost: old, new, or set aside whole. */
  ghost predicate BinaryState(o: Tree, s: Tree, m: Path, new_: Bytes) {
    SameAt(o, s, m) || (m in s && s[m] == new_) || SetAside(o, s, m)
  }

  /** `alias` now holds the bytes `dest` held before. */
  ghost predicate Carries(o: Tree, after: Tree, dest: Path, alias: Path) {
    dest in o && alias in after && after[alias] == o[dest]
  }

  method RefreshAlias(disk: Disk, policy: RetryPolicy, dest: Path, alias: Path) returns (outcome: InstallOutcome)
    requires disk.Valid() && Ordinary(alias) && dest !in Siblings(alias)
    modifies disk
    ensures disk.Valid() && old(disk.seen) <= disk.seen
    ensures outcome == Installed ==> Carries(old(disk.files), disk.files, dest, alias)
    ensures outcome == Deferred ==> SameAt(old(disk.files), disk.files, alias)
    ensures Quiet(disk.answers) && dest in old(disk.files) ==> outcome == Installed
    ensures AliasStep(old(disk.files), disk.files, dest, alias)
    ensures forall s :: s in disk.seen ==> s in old(disk.seen) || AliasStep(old(disk.files), s, dest, alias)
  {
    SiblingsAreFour(alias);
    var aliasPrivate := alias.WithExtension(VERIFIED_RAW_EXT);
    var ok := CopyVerifiedBytes(disk, dest, aliasPrivate);
    if !ok {
      return Failed;
    }
    ghost var mid, before := disk.files, disk.seen;
    outcome := RenameIntoPlace(disk, policy, aliasPrivate, alias);
    AliasSwapped(old(disk.files), mid, disk.files, dest, alias);
    forall s | s in disk.seen && s !in before
      ensures AliasStep(old(disk.files), s, dest, alias)
    {
      AliasSwapped(old(disk.files), mid, s, dest, alias);
    }
  }

  /** Every state of an alias refresh: only the alias and its working files change, and the alias is never lost. */
  ghost predicate AliasStep(o: Tree, s: Tree, dest: Path, alias: Path) {
    SameOutside(o, s, Siblings(alias)) && (dest in o ==> BinaryState(o, s, alias, o[dest]))
  }

  lemma {:induction false} AliasSwapped(o: Tree, mid: Tree, s: Tree, dest: Path, alias: Path)
    requires Ordinary(alias) && dest !in Siblings(alias) && dest in o
    requires mid == o[alias.WithExtension(VERIFIED_RAW_EXT) := o[dest]]
    requires SwapState(mid, s, alias.WithExtension(VERIFIED_RAW_EXT), alias)
    ensures AliasStep(o, s, dest, alias)
  {
    SiblingsAreFour(alias);
    forall p | p !in Siblings(alias) ensures SameAt(o, s, p) {
      assert SameAt(mid, s, p);
    }
  }

  lemma {:induction false} Widen(o: Tree, after: Tree, ps: set<Path>, qs: set<Path>)
    requires SameOutside(o, after, ps) && ps <= qs
    ensures SameOutside(o, after, qs)
  {}

  lemma {:induction false} OthersUntouched(o: Tree, after: Tree, members: seq<Path>, i: nat, k: nat)
    requires BinarySet(members) && i < |members| && k < |members| && i != k
    requires SameOutside(o, after, Siblings(members[i]))
    ensures SameAt(o, after, members[k])
  {
    MembersAreApart(members, k, i);
    assert members[k] in Siblings(members[k]);
  }

  /** While alias `i` is refreshed the rest of the set stays, and the alias is never lost. */
  ghost predicate MemberStep(o: Tree, s: Tree, dest: Path, aliases: seq<Path>, i: nat)
    requires i < |aliases|
  {
    && SameAt(o, s, dest) && SameOutside(o, s, Footprint(aliases))
    && (forall k :: 0 <= k < |aliases| && k != i ==> SameAt(o, s, aliases[k]))
    && (dest in o ==> BinaryState(o, s, aliases[i], o[dest]))
  }

  lemma {:induction false} OnlyOneAliasTouched(o: Tree, after: Tree, dest: Path, aliases: seq<Path>, i: nat)
    requires BinarySet([dest] + aliases) && i < |aliases| && AliasStep(o, after, dest, aliases[i])
    ensures MemberStep(o, after, dest, aliases, i)
  {
    var members := [dest] + aliases;
    assert aliases[i] == members[i + 1];
    FootprintHolds(aliases, i);
    Widen(o, after, Siblings(aliases[i]), Footprint(aliases));
    OthersUntouched(o, after, members, i + 1, 0);
    forall k | 0 <= k < |aliases| && k != i
      ensures SameAt(o, after, aliases[k])
    {
      OthersUntouched(o, after, members, i + 1, k + 1);
      assert members[k + 1] == aliases[k];
    }
  }

  /** Refreshing one alias of a set leaves the primary and every other alias alone. */
  method RefreshMember(disk: Disk, policy: RetryPolicy, dest: Path, aliases: seq<Path>, i: nat)
    returns (outcome: InstallOutcome)
    requires disk.Valid() && BinarySet([dest] + aliases) && i < |aliases|
    modifies disk
    ensures disk.Valid() && old(disk.seen) <= disk.seen
    ensures outcome == Installed ==> Carries(old(disk.files), disk.files, dest, aliases[i])
    ensures outcome == Deferred ==> SameAt(old(disk.files), disk.files, aliases[i])
    ensures Quiet(disk.answers) && dest in old(disk.files) ==> outcome == Installed
    ensures MemberStep(old(disk.files), disk.files, dest, aliases, i)
    ensures forall s :: s in disk.seen ==> s in old(disk.seen) || MemberStep(old(disk.files), s, dest, aliases, i)
  {
    ghost var members := [dest] + aliases;
    assert members[0] == dest && members[i + 1] == aliases[i];
    MembersAreApart(members, 0, i + 1);
    assert dest in Siblings(dest);
    outcome := RefreshAlias(disk, policy, dest, aliases[i]);
    OnlyOneAliasTouched(old(disk.files), disk.files, dest, aliases, i);
    forall s | s in disk.seen && s !in old(disk.seen)
      ensures MemberStep(old(disk.files), s, dest, aliases, i)
    {
      OnlyOneAliasTouched(old(disk.files), s, dest, aliases, i);
    }
  }

  lemma {:induction false} FramesCompose(a: Tree, b: Tree, c: Tree, ps: set<Path>)
    requires SameOutside(a, b, ps) && SameOutside(b, c, ps)
    ensures SameOutside(a, c, ps)
  {}

  /** Every state while the aliases are refreshed: the primary stays, and no alias is ever lost. */
  ghost predicate AliasesStep(o: Tree, s: Tree, dest: Path, aliases: seq<Path>) {
    && SameAt(o, s, dest) && SameOutside(o, s, Footprint(aliases))
    && (dest in o ==> forall a :: a in aliases ==> BinaryState(o, s, a, o[dest]))
  }

  /** How far the refresh has come: the first `i` aliases carry the primary's bytes, the rest are as before. */
  ghost predicate RefreshedTo(o: Tree, t: Tree, dest: Path, aliases: seq<Path>, i: nat) {
    && i <= |aliases| && SameAt(o, t, dest) && SameOutside(o, t, Footprint(aliases))
    && (forall k :: 0 <= k < i ==> Carries(o, t, dest, aliases[k]))
    && (forall k :: i <= k < |aliases| ==> SameAt(o, t, aliases[k]))
  }

  lemma {:induction false} MemberStepIsAliasesStep(o: Tree, mid: Tree, s: Tree, dest: Path, aliases: seq<Path>, i: nat)
    requires i < |aliases| && RefreshedTo(o, mid, dest, aliases, i) && MemberStep(mid, s, dest, aliases, i)
    ensures AliasesStep(o, s, dest, aliases)
    ensures Carries(mid, s, dest, aliases[i]) ==> RefreshedTo(o, s, dest, aliases, i + 1)
  {
    FramesCompose(o, mid, s, Footprint(aliases));
    if dest in o {
      forall k | 0 <= k < |aliases| ensures BinaryState(o, s, aliases[k], o[dest]) {
        if k != i { assert SameAt(mid, s, aliases[k]); }
      }
    }
  }

  method RefreshAliases(disk: Disk, policy: RetryPolicy, dest: Path, aliases: seq<Path>)
    returns (outcome: InstallOutcome)
    requires disk.Valid() && BinarySet([dest] + aliases)
    modifies disk
    ensures disk.Valid() && old(disk.seen) <= disk.seen
    ensures outcome == Installed ==> forall a :: a in aliases ==> Carries(old(disk.files), disk.files, dest, a)
    ensures outcome == Deferred ==>
              forall a :: a in aliases ==>
                  SameAt(old(disk.files), disk.files, a) || Carries(old(disk.files), disk.files, dest, a)
    ensures (Quiet(disk.answers) && dest in old(disk.files)) || aliases == [] ==> outcome == Installed
    ensures AliasesStep(old(disk.files), disk.files, dest, aliases)
    ensures forall s :: s in disk.seen ==> s in old(disk.seen) || AliasesStep(old(disk.files), s, dest, aliases)
  {
    ghost var o := disk.files;
    var i := 0;
    while i < |aliases|
      invariant 0 <= i <= |aliases|
      invariant disk.Valid() && old(disk.seen) <= disk.seen
      invariant RefreshedTo(o, disk.files, dest, aliases, i)
      invariant forall s :: s in disk.seen ==> s in old(disk.seen) || AliasesStep(o, s, dest, aliases)
    {
      ghost var mid, before := disk.files, disk.seen;
      outcome := RefreshMember(disk, policy, dest, aliases, i);
      MemberStepIsAliasesStep(o, mid, disk.files, dest, aliases, i);
      forall s | s in disk.seen && s !in before
        ensures AliasesStep(o, s, dest, aliases)
      {
        MemberStepIsAliasesStep(o, mid, s, dest, aliases, i);
      }
      if outcome != Installed {
        return;
      }
      i := i + 1;
    }
    outcome := Installed;
  }

  // ---------------------------------------------------------------- install_from_private

  /** The private copy: beside a raw binary's destination, or in the apply directory for a package. */
  function PrivateTarget(pc: PlannedComponent, applyDir: string): Path {
    match pc.method_
    case RawBinary => pc.dest.WithExtension(VERIFIED_RAW_EXT)
    case WindowsMsi => Path(applyDir, pc.name, Some("msi"))
    case MacosPkg => Path(applyDir, pc.name, Some("pkg"))
    case LinuxDeb => Path(applyDir, pc.name, Some("deb"))
  }

  /** Files no part of one component's apply works on, given the beacon's own directories. */
  ghost predicate Elsewhere(pc: PlannedComponent, own: set<string>, p: Path) {
    p !in Footprint(pc.Binaries()) && p.dir !in own
  }

  ghost predicate KeptElsewhere(pc: PlannedComponent, own: set<string>, o: Tree, after: Tree) {
    forall p :: Elsewhere(pc, own, p) ==> SameAt(o, after, p)
  }

  /** A raw binary, or a package whose installer leaves alone what is not the component's. */
  ghost predicate Confined(foreign: Foreign, pc: PlannedComponent, own: set<string>) {
    pc.method_.RawBinary?
    || forall n: nat, i: nat, t: Tree :: i < |foreign(n, pc.name)| ==>
         KeptElsewhere(pc, own, t, foreign(n, pc.name)[i](t))
  }

  lemma {:induction false} FootprintIsOwn(pc: PlannedComponent, own: set<string>, o: Tree, after: Tree)
    requires SameOutside(o, after, Footprint(pc.Binaries())) || SameOutside(o, after, Footprint(pc.aliases))
    ensures KeptElsewhere(pc, own, o, after)
  {
    AliasFootprintInside(pc);
  }

  lemma {:induction false} OverlayKeepsElsewhere(pc: PlannedComponent, own: set<string>, o: Tree, w: Tree, dir: string)
    requires KeptElsewhere(pc, own, o, w)
    ensures KeptElsewhere(pc, own, o, Overlay(o, w, dir))
  {}

  /** Run the OS installer over the private package (if one is trusted), then drop the package. */
  method RunNativeInstaller(disk: Disk, pc: PlannedComponent, private: Path, trusted: bool, stateDir: string)
    returns (outcome: InstallOutcome)
    requires disk.Valid() && private.dir != stateDir
    modifies disk
    ensures disk.Valid() && old(disk.seen) <= disk.seen
    ensures outcome == if trusted && Reply(disk.answers, old(disk.tick)).Go? then Installed else Failed
    ensures disk.files ==
            if trusted then
              var installed := InstallerLeaves(old(disk.files), disk.foreign(old(disk.tick), pc.name), stateDir);
              Removed(installed, Reply(disk.answers, old(disk.tick) + 1), private)
            else Removed(old(disk.files), Reply(disk.answers, old(disk.tick)), private)
    ensures SameInDir(old(disk.files), disk.files, stateDir)
    ensures forall s :: s in disk.seen ==> s in old(disk.seen) || SameInDir(old(disk.files), s, stateDir)
    ensures forall own :: private.dir in own && !pc.method_.RawBinary? && Confined(disk.foreign, pc, own) ==>
                            KeptElsewhere(pc, own, old(disk.files), disk.files)
  {
    outcome := Failed;
    ghost var o, k := disk.files, disk.tick;
    if trusted {
      var ok := disk.RunInstaller(pc.name, stateDir);
      outcome := if ok then Installed else Failed;
    }
    ghost var mid := disk.files;
    forall own | private.dir in own && !pc.method_.RawBinary? && Confined(disk.foreign, pc, own)
      ensures KeptElsewhere(pc, own, o, mid)
    {
      ghost var steps := disk.foreign(k, pc.name);
      if trusted && steps != [] { OverlayKeepsElsewhere(pc, own, o, steps[|steps| - 1](o), stateDir); }
    }
    var _ := disk.Remove(private);
  }

  // ---------------------------------------------------------------- the install step

  /** How the verified private copy is put to use: the per-OS installer, or the beacon's own swap. */
  datatype InstallStep = Generic(trusted: bool) | SelfSwap

  /** The binaries a successful step has refreshed: the whole set, or the beacon's own image alone. */
  function Refreshed(pc: PlannedComponent, step: InstallStep): seq<Path> {
    if step.SelfSwap? then [pc.dest] else pc.Binaries()
  }

  /** The component keeps clear of the beacon's state directory, and its binaries of each other. */
  ghost predicate Placeable(pc: PlannedComponent, private: Path, stateDir: string) {
    && BinarySet(pc.Binaries()) && private.dir != stateDir
    && (forall m :: m in pc.Binaries() ==> m.dir != stateDir)
    && (pc.method_.RawBinary? ==> private == pc.dest.WithExtension(VERIFIED_RAW_EXT))
  }

  /** What a raw-binary install step leaves: all new, or a mix of old and new with nothing else touched. */
  ghost predicate RawStepEnd(pc: PlannedComponent, step: InstallStep, o: Tree, after: Tree, outcome: InstallOutcome,
                             new_: Bytes) {
    && SameOutside(o, after, Footprint(pc.Binaries()))
    && (outcome == Installed ==> forall m :: m in Refreshed(pc, step) ==> m in after && after[m] == new_)
    && (outcome == Deferred ==> forall m :: m in pc.Binaries() ==>
          SameAt(o, after, m) || (m in after && after[m] == new_))
    && (outcome == Deferred && (step.SelfSwap? || pc.aliases == []) ==> SameAt(o, after, pc.dest))
  }

  lemma {:induction false} FootprintLeavesDirAlone(o: Tree, after: Tree, members: seq<Path>, dir: string)
    requires SameOutside(o, after, Footprint(members)) && forall m :: m in members ==> m.dir != dir
    ensures SameInDir(o, after, dir)
  {}

  method RawPrimary(disk: Disk, policy: RetryPolicy, pc: PlannedComponent, private: Path)
    returns (outcome: InstallOutcome)
    requires disk.Valid() && BinarySet(pc.Binaries()) && private in disk.files
    requires private == pc.dest.WithExtension(VERIFIED_RAW_EXT)
    modifies disk
    ensures disk.Valid() && old(disk.seen) <= disk.seen
    ensures outcome == Installed ==> Carries(old(disk.files), disk.files, private, pc.dest)
    ensures outcome == Deferred ==> SameAt(old(disk.files), disk.files, pc.dest)
    ensures Quiet(disk.answers) ==> outcome == Installed
    ensures PrimaryStep(pc, old(disk.files), disk.files, old(disk.files)[private])
    ensures forall s :: s in disk.seen ==>
              s in old(disk.seen) || PrimaryStep(pc, old(disk.files), s, old(disk.files)[private])
  {
    ghost var o := disk.files;
    assert pc.Binaries()[0] == pc.dest;
    SiblingsAreFour(pc.dest);
    outcome := RenameIntoPlace(disk, policy, private, pc.dest);
    SwapIsPrimaryStep(pc, o, disk.files, private);
    forall s | s in disk.seen && s !in old(disk.seen)
      ensures PrimaryStep(pc, o, s, o[private])
    {
      SwapIsPrimaryStep(pc, o, s, private);
    }
  }

  /** Every state while the primary is replaced: the aliases stay, and the primary is never lost. */
  ghost predicate PrimaryStep(pc: PlannedComponent, o: Tree, s: Tree, new_: Bytes) {
    && SameOutside(o, s, Footprint(pc.Binaries())) && BinaryState(o, s, pc.dest, new_)
    && forall a :: a in pc.aliases ==> SameAt(o, s, a)
  }

  lemma {:induction false} SwapIsPrimaryStep(pc: PlannedComponent, o: Tree, s: Tree, private: Path)
    requires BinarySet(pc.Binaries()) && private == pc.dest.WithExtension(VERIFIED_RAW_EXT) && private in o
    requires SwapState(o, s, private, pc.dest)
    ensures PrimaryStep(pc, o, s, o[private])
  {
    var members := pc.Binaries();
    assert members[0] == pc.dest;
    FootprintHolds(members, 0);
    assert SwapPaths(private, pc.dest) <= Siblings(pc.dest);
    Widen(o, s, SwapPaths(private, pc.dest), Siblings(members[0]));
    Widen(o, s, Siblings(members[0]), Footprint(members));
    forall k | 0 <= k < |pc.aliases|
      ensures SameAt(o, s, pc.aliases[k])
    {
      OthersUntouched(o, s, members, 0, k + 1);
      assert members[k + 1] == pc.aliases[k];
    }
  }

  lemma {:induction false} AliasFootprintInside(pc: PlannedComponent)
    ensures Footprint(pc.aliases) <= Footprint(pc.Binaries())
  {
    forall m | m in pc.aliases ensures m in pc.Binaries() {}
  }

  /** Every state of a raw install: only the set's own files change, and no binary of it is ever lost. */
  ghost predicate SetStep(pc: PlannedComponent, o: Tree, s: Tree, new_: Bytes) {
    SameOutside(o, s, Footprint(pc.Binaries())) && forall m :: m in pc.Binaries() ==> BinaryState(o, s, m, new_)
  }

  lemma {:induction false} PrimaryStepIsSetStep(pc: PlannedComponent, o: Tree, s: Tree, new_: Bytes)
    requires PrimaryStep(pc, o, s, new_)
    ensures SetStep(pc, o, s, new_)
  {
    assert forall m :: m in pc.Binaries() ==> m == pc.dest || m in pc.aliases;
  }

  lemma {:induction false} AliasesStepIsSetStep(pc: PlannedComponent, o: Tree, mid: Tree, s: Tree, new_: Bytes)
    requires PrimaryStep(pc, o, mid, new_) && pc.dest in mid && mid[pc.dest] == new_
    requires AliasesStep(mid, s, pc.dest, pc.aliases)
    ensures SetStep(pc, o, s, new_)
  {
    AliasFootprintInside(pc);
    Widen(mid, s, Footprint(pc.aliases), Footprint(pc.Binaries()));
    FramesCompose(o, mid, s, Footprint(pc.Binaries()));
    forall m | m in pc.Binaries() ensures BinaryState(o, s, m, new_) {
      if m in pc.aliases { assert SameAt(o, mid, m) && BinaryState(mid, s, m, new_); } else { assert m == pc.dest; }
    }
  }

  method InstallRaw(disk: Disk, policy: RetryPolicy, pc: PlannedComponent, private: Path, step: InstallStep)
    returns (outcome: InstallOutcome)
    requires disk.Valid() && BinarySet(pc.Binaries()) && private in disk.files
    requires private == pc.dest.WithExtension(VERIFIED_RAW_EXT)
    modifies disk
    ensures disk.Valid() && old(disk.seen) <= disk.seen
    ensures RawStepEnd(pc, step, old(disk.files), disk.files, outcome, old(disk.files)[private])
    ensures Quiet(disk.answers) ==> outcome == Installed
    ensures SetStep(pc, old(disk.files), disk.files, old(disk.files)[private])
    ensures forall s :: s in disk.seen ==>
              s in old(disk.seen) || SetStep(pc, old(disk.files), s, old(disk.files)[private])
  {
    ghost var o, new_ := disk.files, disk.files[private];
    outcome := RawPrimary(disk, policy, pc, private);
    PrimaryStepIsSetStep(pc, o, disk.files, new_);
    forall s | s in disk.seen && s !in old(disk.seen) ensures SetStep(pc, o, s, new_) {
      PrimaryStepIsSetStep(pc, o, s, new_);
    }
    assert forall m :: m in pc.Binaries() ==> m == pc.dest || m in pc.aliases;
    if outcome != Installed || step.SelfSwap? {
      return;
    }
    ghost var mid, before := disk.files, disk.seen;
    outcome := RefreshAliases(disk, policy, pc.dest, pc.aliases);
    AliasesStepIsSetStep(pc, o, mid, disk.files, new_);
    forall s | s in disk.seen && s !in before ensures SetStep(pc, o, s, new_) {
      AliasesStepIsSetStep(pc, o, mid, s, new_);
    }
  }

  method InstallPackage(disk: Disk, policy: RetryPolicy, pc: PlannedComponent, private: Path, trusted: bool,
                        stateDir: string, ghost own: set<string>)
    returns (outcome: InstallOutcome)
    requires disk.Valid() && Placeable(pc, private, stateDir) && !pc.method_.RawBinary? && private.dir in own
    modifies disk
    ensures disk.Valid() && old(disk.seen) <= disk.seen
    ensures SameInDir(old(disk.files), disk.files, stateDir)
    ensures Confined(disk.foreign, pc, own) ==> KeptElsewhere(pc, own, old(disk.files), disk.files)
    ensures forall s :: s in disk.seen ==> s in old(disk.seen) || SameInDir(old(disk.files), s, stateDir)
  {
    outcome := RunNativeInstaller(disk, pc, private, trusted, stateDir);
    if outcome != Installed {
      return;
    }
    ghost var mid, before := disk.files, disk.seen;
    assert forall m :: m in pc.aliases ==> m in pc.Binaries();
    outcome := RefreshAliases(disk, policy, pc.dest, pc.aliases);
    FootprintIsOwn(pc, own, mid, disk.files);
    FootprintLeavesDirAlone(mid, disk.files, pc.aliases, stateDir);
    forall s | s in disk.seen && s !in before
      ensures SameInDir(old(disk.files), s, stateDir)
    {
      FootprintLeavesDirAlone(mid, s, pc.aliases, stateDir);
    }
  }

  /** Install from the verified private copy: swap or OS installer, then the aliases. */
  method InstallFromPrivate(disk: Disk, policy: RetryPolicy, pc: PlannedComponent, private: Path, step: InstallStep,
                            stateDir: string, ghost own: set<string>)
    returns (outcome: InstallOutcome)
    requires disk.Valid() && Placeable(pc, private, stateDir) && private in disk.files
    requires (step.SelfSwap? ==> pc.method_.RawBinary?) && (!pc.method_.RawBinary? ==> private.dir in own)
    modifies disk
    ensures disk.Valid() && old(disk.seen) <= disk.seen
    ensures pc.method_.RawBinary? ==>
              RawStepEnd(pc, step, old(disk.files), disk.files, outcome, old(disk.files)[private])
    ensures pc.method_.RawBinary? && Quiet(disk.answers) ==> outcome == Installed
    ensures SameInDir(old(disk.files), disk.files, stateDir)
    ensures Confined(disk.foreign, pc, own) ==> KeptElsewhere(pc, own, old(disk.files), disk.files)
    ensures forall s :: s in disk.seen ==> s in old(disk.seen) || SameInDir(old(disk.files), s, stateDir)
    ensures pc.method_.RawBinary? ==> SetStep(pc, old(disk.files), disk.files, old(disk.files)[private])
    ensures pc.method_.RawBinary? ==>
              forall s :: s in disk.seen ==>
                  s in old(disk.seen) || SetStep(pc, old(disk.files), s, old(disk.files)[private])
  {
    if pc.method_.RawBinary? {
      outcome := InstallRaw(disk, policy, pc, private, step);
      FootprintLeavesDirAlone(old(disk.files), disk.files, pc.Binaries(), stateDir);
      FootprintIsOwn(pc, own, old(disk.files), disk.files);
      forall s | s in disk.seen && s !in old(disk.seen)
        ensures SameInDir(old(disk.files), s, stateDir)
      {
        FootprintLeavesDirAlone(old(disk.files), s, pc.Binaries(), stateDir);
      }
    } else {
      outcome := InstallPackage(disk, policy, pc, private, step.trusted, stateDir, own);
    }
  }
}
