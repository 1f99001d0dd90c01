/** Atomic file persistence: write a temporary sibling, flush it, rename it over the target. */
module Persist {
  import opened Files

  const JSON_TMP_EXT := "json.tmp"

  /** Every state of an atomic write: the target is the old file or the complete new one. */
  ghost predicate AtomicState(o: Tree, s: Tree, path: Path, bytes: Bytes) {
    && SameOutside(o, s, {path, path.WithExtension(JSON_TMP_EXT)})
    && (SameAt(o, s, path) || (path in s && s[path] == bytes))
  }

  /** The three primitives of an atomic write, from number `n` on, all work. */
  predicate Publishes(answers: Schedule, n: nat) {
    Reply(answers, n).Go? && Reply(answers, n + 1).Go? && Reply(answers, n + 2).Go?
  }

  /** How many of them are performed: the first that does not work is the last. */
  function Spent(answers: Schedule, n: nat): nat {
    if !Reply(answers, n).Go? then 1 else if !Reply(answers, n + 1).Go? then 2 else 3
  }

  method WriteJsonAtomic(disk: Disk, path: Path, bytes: Bytes) returns (r: Result<()>)
    requires disk.Valid() && path != path.WithExtension(JSON_TMP_EXT)
    modifies disk
    ensures disk.Valid() && old(disk.seen) <= disk.seen
    ensures r.Ok? ==> path in disk.files && disk.files[path] == bytes && path.WithExtension(JSON_TMP_EXT) !in disk.files
    ensures r.Err? ==> r.error == Io && SameAt(old(disk.files), disk.files, path)
    ensures r.Ok? <==> Publishes(disk.answers, old(disk.tick))
    ensures disk.tick == old(disk.tick) + Spent(disk.answers, old(disk.tick))
    ensures AtomicState(old(disk.files), disk.files, path, bytes)
    ensures forall s :: s in disk.seen ==> s in old(disk.seen) || AtomicState(old(disk.files), s, path, bytes)
  {
    var ok := disk.Perform();
    if !ok { return Err(Io); }
    var tmp := path.WithExtension(JSON_TMP_EXT);
    assert bytes[..|bytes|] == bytes;
    ok := disk.Write(tmp, bytes);
    if !ok { return Err(Io); }
    var renamed := disk.Rename(tmp, path);
    r := if renamed == Done then Ok(()) else Err(Io);
  }
}
