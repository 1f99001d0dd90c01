/**
 Paths, bytes, and the disk every privileged step works on. Each primitive consults a fault schedule,
 and the disk remembers every state it has passed through: those are the states a crash can leave.
 */
module Files {

  type Byte = b: int | 0 <= b < 256
  type Bytes = seq<Byte>

  datatype Option<+T> = None | Some(value: T)

  datatype Error = Io | StateCorrupt | StagedPathEscapesStaging | StagingReverifyFailed | StagedArtifactMissing
                 | ReverifyFailed | RollbackFailed | AclViolation | Panicked

  datatype Result<+T> = Ok(value: T) | Err(error: Error) {
    predicate IsFailure() { Err? }
    function PropagateFailure<U>(): Result<U> requires Err? { Err(error) }
    function Extract(): T requires Ok? { value }
  }

  /** A file path: directory, file stem, and the extension after the last dot. */
  datatype Path = Path(dir: string, stem: string, ext: Option<string>) {
    function WithExtension(e: string): Path { this.(ext := Some(e)) }
  }

  /** What the filesystem holds. */
  type Tree = map<Path, Bytes>

  /** How the host answers one primitive: do it, file in use, refuse, or (a write) stop part way. */
  datatype Answer = Go | Busy | Refuse | Torn(kept: nat)

  /** A fault schedule: how the host answers each primitive in turn, and anything past its end with Go. */
  type Schedule = seq<Answer>

  function Reply(answers: Schedule, n: nat): Answer {
    if n < |answers| then answers[n] else Go
  }

  /** The result of a rename: done, the file-in-use class, or any other error. */
  datatype RenameResult = Done | InUse | Hard

  function Renaming(t: Tree, a: Answer, from: Path): RenameResult {
    if from !in t then Hard else match a case Go => Done case Busy => InUse case _ => Hard
  }

  function Moved(t: Tree, from: Path, to: Path): Tree
    requires from in t
  {
    (t - {from})[to := t[from]]
  }

  function Renamed(t: Tree, a: Answer, from: Path, to: Path): Tree {
    if Renaming(t, a, from) == Done then Moved(t, from, to) else t
  }

  function Removed(t: Tree, a: Answer, p: Path): Tree {
    if a.Go? then t - {p} else t
  }

  /** How much of a write of `n` bytes reached the file; `None` when it was never created. */
  function Kept(a: Answer, n: nat): Option<nat> {
    match a
    case Go => Some(n)
    case Torn(k) => Some(if k < n then k else n)
    case _ => None
  }

  function Written(t: Tree, a: Answer, p: Path, b: Bytes): Tree {
    match Kept(a, |b|)
    case None => t
    case Some(n) => t[p := b[..n]]
  }

  /** The states a write passes through: the truncated file, growing byte by byte. */
  ghost function WriteStates(t: Tree, a: Answer, p: Path, b: Bytes): set<Tree> {
    match Kept(a, |b|)
    case None => {}
    case Some(n) => set k: nat | k <= n :: t[p := b[..k]]
  }

  function Appended(t: Tree, a: Answer, p: Path, b: Bytes): Tree
    requires p in t
  {
    match Kept(a, |b|)
    case None => t
    case Some(n) => t[p := t[p] + b[..n]]
  }

  ghost function AppendStates(t: Tree, a: Answer, p: Path, b: Bytes): set<Tree>
    requires p in t
  {
    match Kept(a, |b|)
    case None => {}
    case Some(n) => set k: nat | k <= n :: t[p := t[p] + b[..k]]
  }

  /** `t` with everything outside `dir` replaced by what `w` holds there. */
  function Overlay(t: Tree, w: Tree, dir: string): Tree {
    (map p | p in t && p.dir == dir :: t[p]) + (map p | p in w && p.dir != dir :: w[p])
  }

  /** What an installer's program makes of `t`. */
  function InstallerLeaves(t: Tree, steps: seq<Tree -> Tree>, dir: string): Tree {
    if steps == [] then t else Overlay(t, steps[|steps| - 1](t), dir)
  }

  /** Every state an installer's program takes `t` through. */
  ghost function OverlayStates(t: Tree, steps: seq<Tree -> Tree>, dir: string): set<Tree> {
    set i | 0 <= i < |steps| :: Overlay(t, steps[i](t), dir)
  }

  lemma {:induction false} OverlayKeepsDir(t: Tree, w: Tree, dir: string)
    ensures SameInDir(t, Overlay(t, w, dir), dir)
  {}

  lemma {:induction false} OverlaysKeepDir(t: Tree, steps: seq<Tree -> Tree>, dir: string)
    ensures forall s :: s in OverlayStates(t, steps, dir) ==> SameInDir(t, s, dir)
    ensures steps != [] ==> SameInDir(t, Overlay(t, steps[|steps| - 1](t), dir), dir)
  {
    forall i | 0 <= i < |steps| ensures SameInDir(t, Overlay(t, steps[i](t), dir), dir) {
      OverlayKeepsDir(t, steps[i](t), dir);
    }
  }

  /** `p` holds the same thing in both trees. */
  ghost predicate SameAt(a: Tree, b: Tree, p: Path) {
    (p in a <==> p in b) && (p in a && p in b ==> a[p] == b[p])
  }

  /** The trees agree everywhere outside `ps`. */
  ghost predicate SameOutside(a: Tree, b: Tree, ps: set<Path>) {
    forall p :: p !in ps ==> SameAt(a, b, p)
  }

  /** The trees agree on every file directly in `dir`. */
  ghost predicate SameInDir(a: Tree, b: Tree, dir: string) {
    forall p: Path :: p.dir == dir ==> SameAt(a, b, p)
  }

  const SEPARATOR := "/"

  /** `p` lies in directory `dir` or in one below it. */
  predicate Under(p: Path, dir: string) { p.dir == dir || dir + SEPARATOR <= p.dir }

  /** Some files under `dir` may have gone; nothing else has changed. */
  ghost predicate OnlyRemovedUnder(a: Tree, b: Tree, dir: string) {
    forall p: Path :: SameAt(a, b, p) || (Under(p, dir) && p !in b)
  }

  /** No primitive ever fails. */
  ghost predicate Quiet(answers: Schedule) {
    forall n: nat :: Reply(answers, n).Go?
  }

  /** An OS installer's program: run as primitive `n` on a package, the successive states it makes of the disk. */
  type Foreign = (nat, string) -> seq<Tree -> Tree>

  class Disk {
    var files: Tree
    var tick: nat                     // primitives performed so far; the next one is answered Reply(answers, tick)
    const answers: Schedule
    const foreign: Foreign            // what an OS installer run as that primitive does to the disk
    ghost var seen: set<Tree>         // every state so far, each of which a crash could leave behind

    constructor (files: Tree, answers: Schedule, foreign: Foreign)
      ensures this.files == files && this.answers == answers && this.foreign == foreign && tick == 0 && seen == {files}
    {
      this.files, this.tick, this.answers, this.foreign := files, 0, answers, foreign;
      this.seen := {files};
    }

    ghost predicate Valid()
      reads this
    {
      files in seen
    }

    /** A primitive that changes no file's bytes: create a directory, flush, set a mode. */
    method Perform() returns (ok: bool)
      modifies this`tick
      ensures tick == old(tick) + 1
      ensures ok == Reply(answers, old(tick)).Go?
    {
      ok := Reply(answers, tick).Go?;
      tick := tick + 1;
    }

    method Rename(from: Path, to: Path) returns (r: RenameResult)
      requires Valid()
      modifies this
      ensures Valid() && tick == old(tick) + 1
      ensures r == Renaming(old(files), Reply(answers, old(tick)), from)
      ensures files == Renamed(old(files), Reply(answers, old(tick)), from, to)
      ensures seen == old(seen) + {files}
    {
      r := Renaming(files, Reply(answers, tick), from);
      files := Renamed(files, Reply(answers, tick), from, to);
      tick := tick + 1;
      seen := seen + {files};
    }

    method Remove(p: Path) returns (ok: bool)
      requires Valid()
      modifies this
      ensures Valid() && tick == old(tick) + 1
      ensures ok == (Reply(answers, old(tick)).Go? && p in old(files))
      ensures files == Removed(old(files), Reply(answers, old(tick)), p)
      ensures seen == old(seen) + {files}
    {
      ok := Reply(answers, tick).Go? && p in files;
      files := Removed(files, Reply(answers, tick), p);
      tick := tick + 1;
      seen := seen + {files};
    }

    /** Open and read a whole file; any answer but Go is a read error. */
    method Read(p: Path) returns (r: Option<Bytes>)
      modifies this`tick
      ensures tick == old(tick) + 1
      ensures r == if p in files && Reply(answers, old(tick)).Go? then Some(files[p]) else None
    {
      r := if p in files && Reply(answers, tick).Go? then Some(files[p]) else None;
      tick := tick + 1;
    }

    /** Create a file, truncating one that is there. */
    method Create(p: Path) returns (ok: bool)
      requires Valid()
      modifies this
      ensures Valid() && tick == old(tick) + 1
      ensures ok == Reply(answers, old(tick)).Go?
      ensures files == if ok then old(files)[p := []] else old(files)
      ensures seen == old(seen) + {files}
    {
      ok := Reply(answers, tick).Go?;
      if ok { files := files[p := []]; }
      tick := tick + 1;
      seen := seen + {files};
    }

    /** Append to an open file. */
    method Append(p: Path, b: Bytes) returns (ok: bool)
      requires Valid() && p in files
      modifies this
      ensures Valid() && tick == old(tick) + 1
      ensures ok == Reply(answers, old(tick)).Go?
      ensures files == Appended(old(files), Reply(answers, old(tick)), p, b)
      ensures seen == old(seen) + AppendStates(old(files), Reply(answers, old(tick)), p, b) + {files}
    {
      ghost var before := files;
      ok := Reply(answers, tick).Go?;
      files := Appended(files, Reply(answers, tick), p, b);
      seen := seen + AppendStates(before, Reply(answers, tick), p, b) + {files};
      tick := tick + 1;
    }

    /** Remove everything under a directory, one file after another in any order, giving up at the first that stays. */
    method RemoveDirAll(dir: string) returns (ok: bool)
      requires Valid()
      modifies this
      ensures Valid() && old(seen) <= seen
      ensures OnlyRemovedUnder(old(files), files, dir)
      ensures forall s :: s in seen ==> s in old(seen) || OnlyRemovedUnder(old(files), s, dir)
      ensures ok ==> forall p :: p in files ==> !Under(p, dir)
      ensures Quiet(answers) ==> ok
    {
      var todo := set p | p in files && Under(p, dir);
      ok := true;
      while todo != {} && ok
        invariant Valid() && old(seen) <= seen && OnlyRemovedUnder(old(files), files, dir)
        invariant forall s :: s in seen ==> s in old(seen) || OnlyRemovedUnder(old(files), s, dir)
        invariant ok ==> forall p :: p in todo <==> p in files && Under(p, dir)
        invariant Quiet(answers) ==> ok
        decreases |todo|
      {
        var p :| p in todo;
        ok := Remove(p);
        todo := todo - {p};
      }
    }

    /** Hand the disk to an OS installer: it may rewrite everything except the files in `dir`. */
    method RunInstaller(package: string, dir: string) returns (ok: bool)
      requires Valid()
      modifies this
      ensures Valid() && tick == old(tick) + 1
      ensures ok == Reply(answers, old(tick)).Go?
      ensures files == InstallerLeaves(old(files), foreign(old(tick), package), dir)
      ensures SameInDir(old(files), files, dir)
      ensures forall s :: s in seen ==> s in old(seen) || SameInDir(old(files), s, dir)
      ensures old(seen) <= seen
    {
      var before, steps := files, foreign(tick, package);
      ok := Reply(answers, tick).Go?;
      tick := tick + 1;
      OverlaysKeepDir(before, steps, dir);
      if steps != [] {
        files := Overlay(before, steps[|steps| - 1](before), dir);
        seen := seen + OverlayStates(before, steps, dir) + {files};
      }
    }

    /** Create (truncating), write, and flush a file. */
    method Write(p: Path, b: Bytes) returns (ok: bool)
      requires Valid()
      modifies this
      ensures Valid() && tick == old(tick) + 1
      ensures ok == Reply(answers, old(tick)).Go?
      ensures files == Written(old(files), Reply(answers, old(tick)), p, b)
      ensures seen == old(seen) + WriteStates(old(files), Reply(answers, old(tick)), p, b)
    {
      var a := Reply(answers, tick);
      ok := a.Go?;
      ghost var before := files;
      files := Written(files, a, p, b);
      tick := tick + 1;
      seen := seen + WriteStates(before, a, p, b);
      if Kept(a, |b|).Some? {
        ghost var n: nat := Kept(a, |b|).value;
        assert before[p := b[..n]] in WriteStates(before, a, p, b);
      }
    }
  }
}
