/**
 The last-known-good cache: snapshot a binary before replacing it, and reinstate it later only after
 re-hashing the cached bytes and, across passes, checking the recorded build against the floor.
 */
module Rollback {
  import opened Files
  import opened Hashing
  import opened Components

  /** A cache key as a file name: an alias's key carries the alias's own extension. */
  datatype Key = Key(stem: string, ext: Option<string>) {
    function FullName(): string { if ext.None? then stem else stem + "." + ext.value }
  }

  datatype LkgRecord = LkgRecord(digest: string, build: Option<nat>, dest: Path)
  datatype LkgEntry = LkgEntry(component: Key, digest: string, build: Option<nat>, cachedPath: Path, dest: Path)
  datatype RestoreKind = InPlace | CrossPass

  /** The record file's text form. */
  datatype RecordCodec = RecordCodec(print_: LkgRecord -> Bytes, parse: Bytes -> Option<LkgRecord>)

  /** Printing then parsing is the identity, and no record cut short still parses. */
  ghost predicate Lawful(c: RecordCodec) {
    && (forall r :: c.parse(c.print_(r)) == Some(r))
    && (forall r, b: Bytes :: b < c.print_(r) ==> c.parse(b) == None)
  }

  /** The cache for one channel: its directory, the hash, and the record format. */
  datatype LkgCache = LkgCache(dir: string, h: HashFn, codec: RecordCodec) {
    function CachedPath(key: Key): Path { Path(dir, key.stem, key.ext) }
    function RecordPath(key: Key): Path { Path(dir, key.FullName(), Some("json")) }
    function DigestOf(b: Bytes): string { HexLower(h.Of(b)) }
    function CachePaths(key: Key): set<Path> {
      {CachedPath(key), CachedPath(key).WithExtension(LKG_TMP_EXT), RecordPath(key)}
    }
  }

  /** A key whose cached file is neither a record nor a working file. */
  predicate CacheKey(key: Key) {
    key.ext.None? || (key.ext.value !in RESERVED_EXTS && key.ext.value != "json")
  }

  lemma {:induction false} CacheFilesDiffer(cache: LkgCache, key: Key)
    requires CacheKey(key)
    ensures var c := cache.CachedPath(key);
            c != c.WithExtension(LKG_TMP_EXT) && c != cache.RecordPath(key)
            && c.WithExtension(LKG_TMP_EXT) != cache.RecordPath(key)
  {
    assert |LKG_TMP_EXT| == 7 && |"json"| == 4;
  }

  /** Copy through a temporary sibling and a rename: the target is never seen half-written. */
  method CopyBytes(disk: Disk, src: Path, dst: Path) returns (ok: bool)
    requires disk.Valid()
    modifies disk
    ensures disk.Valid() && old(disk.seen) <= disk.seen
    ensures ok ==> src in old(disk.files) && dst in disk.files && disk.files[dst] == old(disk.files)[src]
    ensures !ok && !IsWorkingCopy(dst) ==> SameAt(old(disk.files), disk.files, dst)
    ensures Quiet(disk.answers) && src in old(disk.files) ==> ok
    ensures CopyState(old(disk.files), disk.files, src, dst)
    ensures forall s :: s in disk.seen ==> s in old(disk.seen) || CopyState(old(disk.files), s, src, dst)
  {
    ok := disk.Perform();
    if !ok { return; }
    var bytes := disk.Read(src);
    if bytes.None? { return false; }
    var tmp := dst.WithExtension(LKG_TMP_EXT);
    assert bytes.value[..|bytes.value|] == bytes.value;
    ok := disk.Write(tmp, bytes.value);
    if !ok { return; }
    var r := disk.Rename(tmp, dst);
    ok := r == Done;
  }

  /** A path that is its own temporary: nothing of the copy's promise holds for it. */
  predicate IsWorkingCopy(p: Path) { p.ext == Some(LKG_TMP_EXT) }

  /** Every state of a copy: only the target and its temporary change, the target all or nothing. */
  ghost predicate CopyState(o: Tree, s: Tree, src: Path, dst: Path) {
    && SameOutside(o, s, {dst, dst.WithExtension(LKG_TMP_EXT)})
    && (IsWorkingCopy(dst) || SameAt(o, s, dst) || (src in o && dst in s && s[dst] == o[src]))
  }

  // ---------------------------------------------------------------- snapshot

  function EntryFor(cache: LkgCache, key: Key, dest: Path, build: Option<nat>, bytes: Bytes): LkgEntry {
    LkgEntry(key, cache.DigestOf(bytes), build, cache.CachedPath(key), dest)
  }

  function RecordOf(e: LkgEntry): LkgRecord { LkgRecord(e.digest, e.build, e.dest) }

  /**
   Every state of a snapshot of `dest`: the cached copy is the old one or the new one whole, and the
   record changes only once the new copy is in place, growing towards the new record's text.
   */
  ghost predicate SnapshotState(cache: LkgCache, o: Tree, s: Tree, key: Key, dest: Path, build: Option<nat>) {
    var c, rec := cache.CachedPath(key), cache.RecordPath(key);
    && SameOutside(o, s, cache.CachePaths(key))
    && (|| (SameAt(o, s, rec) && SameAt(o, s, c))
        || (dest in o && c in s && s[c] == o[dest]
            && (SameAt(o, s, rec)
                || (rec in s && s[rec] <= cache.codec.print_(RecordOf(EntryFor(cache, key, dest, build, o[dest])))))))
  }

  method Snapshot(disk: Disk, cache: LkgCache, key: Key, dest: Path, build: Option<nat>)
    returns (r: Result<Option<LkgEntry>>)
    requires disk.Valid() && CacheKey(key) && dest.dir != cache.dir
    modifies disk
    ensures disk.Valid() && old(disk.seen) <= disk.seen
    ensures dest !in old(disk.files) ==> r == Ok(None) && disk.files == old(disk.files)
    ensures dest in old(disk.files) && r.Ok? ==>
              && r.value == Some(EntryFor(cache, key, dest, build, old(disk.files)[dest]))
              && cache.CachedPath(key) in disk.files && disk.files[cache.CachedPath(key)] == old(disk.files)[dest]
              && cache.RecordPath(key) in disk.files
              && disk.files[cache.RecordPath(key)] == cache.codec.print_(RecordOf(r.value.value))
    ensures Quiet(disk.answers) ==> r.Ok?
    ensures SnapshotState(cache, old(disk.files), disk.files, key, dest, build)
    ensures forall s :: s in disk.seen ==>
              s in old(disk.seen) || SnapshotState(cache, old(disk.files), s, key, dest, build)
  {
    if dest !in disk.files {
      return Ok(None);
    }
    var ok := disk.Perform();
    if !ok { return Err(Io); }
    var bytes := disk.Read(dest);
    if bytes.None? { return Err(Io); }
    var entry := EntryFor(cache, key, dest, build, bytes.value);
    CacheFilesDiffer(cache, key);
    ok := CopyBytes(disk, dest, entry.cachedPath);
    if !ok { return Err(Io); }
    ok := WriteRecord(disk, cache, entry, bytes.value, old(disk.files));
    r := if ok then Ok(Some(entry)) else Err(Io);
  }

  /** The last step of a snapshot: write the record beside the cached copy, in place. */
  method WriteRecord(disk: Disk, cache: LkgCache, e: LkgEntry, ghost bytes: Bytes, ghost o: Tree) returns (ok: bool)
    requires disk.Valid() && CacheKey(e.component) && e.dest in o && o[e.dest] == bytes
    requires e == EntryFor(cache, e.component, e.dest, e.build, bytes)
    requires SameOutside(o, disk.files, cache.CachePaths(e.component))
    requires SameAt(o, disk.files, cache.RecordPath(e.component))
    requires e.cachedPath in disk.files && disk.files[e.cachedPath] == bytes
    modifies disk
    ensures disk.Valid() && old(disk.seen) <= disk.seen
    ensures ok ==> disk.files == old(disk.files)[cache.RecordPath(e.component) := cache.codec.print_(RecordOf(e))]
    ensures Quiet(disk.answers) ==> ok
    ensures SnapshotState(cache, o, disk.files, e.component, e.dest, e.build)
    ensures forall s :: s in disk.seen ==>
              s in old(disk.seen) || SnapshotState(cache, o, s, e.component, e.dest, e.build)
  {
    CacheFilesDiffer(cache, e.component);
    var text := cache.codec.print_(RecordOf(e));
    assert text[..|text|] == text;
    ok := disk.Write(cache.RecordPath(e.component), text);
  }

  // ---------------------------------------------------------------- restore

  /** The floor gate: a restore across passes needs a known build at or above the floor. */
  predicate FloorAllows(e: LkgEntry, floor: nat, kind: RestoreKind) {
    kind == CrossPass ==> e.build.Some? && e.build.value >= floor
  }

  method Restore(disk: Disk, cache: LkgCache, e: LkgEntry, floor: nat, kind: RestoreKind) returns (r: Result<()>)
    requires disk.Valid()
    modifies disk
    ensures disk.Valid() && old(disk.seen) <= disk.seen
    ensures r.Ok? ==> RestoreAllowed(cache, e, floor, kind, old(disk.files))
                      && e.dest in disk.files && disk.files[e.dest] == old(disk.files)[e.cachedPath]
    ensures r.Err? ==>
              r.error == RollbackFailed && (IsWorkingCopy(e.dest) || SameAt(old(disk.files), disk.files, e.dest))
    ensures Quiet(disk.answers) ==> (r.Ok? <==> RestoreAllowed(cache, e, floor, kind, old(disk.files)))
    ensures RestoreState(cache, e, floor, kind, old(disk.files), disk.files)
    ensures forall s :: s in disk.seen ==>
              s in old(disk.seen) || RestoreState(cache, e, floor, kind, old(disk.files), s)
  {
    if kind == CrossPass && (e.build.None? || e.build.value < floor) {
      return Err(RollbackFailed);
    }
    var bytes := disk.Read(e.cachedPath);
    if bytes.None? || cache.DigestOf(bytes.value) != e.digest {
      return Err(RollbackFailed);
    }
    var ok := CopyBytes(disk, e.cachedPath, e.dest);
    r := if ok then Ok(()) else Err(RollbackFailed);
  }

  /** The cached bytes are there, match their recorded digest, and the floor permits them. */
  ghost predicate RestoreAllowed(cache: LkgCache, e: LkgEntry, floor: nat, kind: RestoreKind, t: Tree) {
    FloorAllows(e, floor, kind) && e.cachedPath in t && cache.DigestOf(t[e.cachedPath]) == e.digest
  }

  ghost predicate RestoreState(cache: LkgCache, e: LkgEntry, floor: nat, kind: RestoreKind, o: Tree, s: Tree) {
    && SameOutside(o, s, {e.dest, e.dest.WithExtension(LKG_TMP_EXT)})
    && (|| IsWorkingCopy(e.dest) || SameAt(o, s, e.dest)
        || (RestoreAllowed(cache, e, floor, kind, o) && e.dest in s && s[e.dest] == o[e.cachedPath]))
  }

  // ---------------------------------------------------------------- the manual, cross-pass rollback

  function LoadedEntry(cache: LkgCache, key: Key, record: LkgRecord): LkgEntry {
    LkgEntry(key, record.digest, record.build, cache.CachedPath(key), record.dest)
  }

  method LoadEntry(disk: Disk, cache: LkgCache, key: Key) returns (r: Result<LkgEntry>)
    requires disk.Valid()
    modifies disk`tick
    ensures r.Ok? ==> cache.RecordPath(key) in disk.files
                      && exists rec :: cache.codec.parse(disk.files[cache.RecordPath(key)]) == Some(rec)
                                       && r.value == LoadedEntry(cache, key, rec)
    ensures Quiet(disk.answers) ==>
              var record := cache.RecordPath(key);
              (r.Ok? <==> record in disk.files && cache.codec.parse(disk.files[record]).Some?)
  {
    var bytes := disk.Read(cache.RecordPath(key));
    if bytes.None? { return Err(Io); }
    var record := cache.codec.parse(bytes.value);
    if record.None? { return Err(Io); }
    r := Ok(LoadedEntry(cache, key, record.value));
  }

  /** Under key `k` the cache of `t` vouches for `b` at `p`: recorded for that destination, digest and floor checked. */
  ghost predicate VouchedBy(cache: LkgCache, k: Key, floor: nat, t: Tree, p: Path, b: Bytes) {
    && cache.RecordPath(k) in t && cache.codec.parse(t[cache.RecordPath(k)]).Some?
    && var rec := cache.codec.parse(t[cache.RecordPath(k)]).value;
       && rec.dest == p && rec.build.Some? && rec.build.value >= floor
       && cache.CachedPath(k) in t && t[cache.CachedPath(k)] == b && cache.DigestOf(b) == rec.digest
  }

  /** `o`'s cache vouches for `b` at `p` under one of the keys. */
  ghost predicate Vouched(cache: LkgCache, keys: seq<Key>, floor: nat, o: Tree, p: Path, b: Bytes) {
    exists i :: 0 <= i < |keys| && VouchedBy(cache, keys[i], floor, o, p, b)
  }

  /** The cache vouched for `b` at `p` when one of the keys had its turn; `trees[i]` is the disk at turn `i`. */
  ghost predicate VouchedInTurn(cache: LkgCache, keys: seq<Key>, floor: nat, trees: seq<Tree>, p: Path, b: Bytes) {
    exists i :: 0 <= i < |keys| && i < |trees| && VouchedBy(cache, keys[i], floor, trees[i], p, b)
  }

  /** Every file but a working copy is as before, or holds bytes vouched for in turn. */
  ghost predicate VouchedState(cache: LkgCache, keys: seq<Key>, floor: nat, trees: seq<Tree>, o: Tree, s: Tree) {
    forall p: Path :: !IsWorkingCopy(p) ==>
        SameAt(o, s, p) || (p in s && VouchedInTurn(cache, keys, floor, trees, p, s[p]))
  }

  /** Every file but a working copy is as before, or holds bytes the cache of `o` itself vouches for. */
  ghost predicate RollbackState(cache: LkgCache, keys: seq<Key>, floor: nat, o: Tree, s: Tree) {
    forall p: Path :: !IsWorkingCopy(p) ==> SameAt(o, s, p) || (p in s && Vouched(cache, keys, floor, o, p, s[p]))
  }

  /** One key's turn took `a` to `b` by restoring the entry its record then named. */
  ghost predicate RestoreStep(cache: LkgCache, k: Key, floor: nat, a: Tree, b: Tree) {
    && cache.RecordPath(k) in a && cache.codec.parse(a[cache.RecordPath(k)]).Some?
    && var entry := LoadedEntry(cache, k, cache.codec.parse(a[cache.RecordPath(k)]).value);
       RestoreState(cache, entry, floor, CrossPass, a, b)
  }

  /** The disk at each key's turn, and after the last one taken. */
  ghost predicate RollbackRun(cache: LkgCache, keys: seq<Key>, floor: nat, trees: seq<Tree>) {
    && 1 <= |trees| <= |keys| + 1
    && forall i :: 0 <= i < |trees| - 1 ==> RestoreStep(cache, keys[i], floor, trees[i], trees[i + 1])
  }

  /** The destination that key `i`'s record named at its turn now holds vouched bytes. */
  ghost predicate Reinstated(cache: LkgCache, keys: seq<Key>, floor: nat, trees: seq<Tree>, s: Tree, i: nat)
    requires i < |keys| && i < |trees|
  {
    && cache.RecordPath(keys[i]) in trees[i] && cache.codec.parse(trees[i][cache.RecordPath(keys[i])]).Some?
    && var p := cache.codec.parse(trees[i][cache.RecordPath(keys[i])]).value.dest;
       IsWorkingCopy(p) || (p in s && VouchedInTurn(cache, keys, floor, trees, p, s[p]))
  }

  /** Every state of the turn that starts at the last tree: vouched for, and what was reinstated stays so. */
  lemma {:induction false} TurnVouches(cache: LkgCache, keys: seq<Key>, floor: nat, trees: seq<Tree>, s: Tree)
    requires RollbackRun(cache, keys, floor, trees) && |trees| <= |keys|
    requires VouchedState(cache, keys, floor, trees, trees[0], trees[|trees| - 1])
    requires RestoreStep(cache, keys[|trees| - 1], floor, trees[|trees| - 1], s)
    ensures VouchedState(cache, keys, floor, trees, trees[0], s)
    ensures forall i: nat :: i < |trees| && Reinstated(cache, keys, floor, trees, trees[|trees| - 1], i) ==>
                               Reinstated(cache, keys, floor, trees, s, i)
  {
    var n := |trees| - 1;
    var k, mid := keys[n], trees[n];
    var e := LoadedEntry(cache, k, cache.codec.parse(mid[cache.RecordPath(k)]).value);
    forall p: Path | !IsWorkingCopy(p)
      ensures SameAt(mid, s, p) || (p in s && VouchedInTurn(cache, keys, floor, trees, p, s[p]))
    {
      if !SameAt(mid, s, p) {
        assert p == e.dest && VouchedBy(cache, keys[n], floor, trees[n], p, s[p]);
      }
    }
  }

  /** What was vouched for stays so as the run goes on. */
  lemma {:induction false} LongerRunVouches(cache: LkgCache, keys: seq<Key>, floor: nat, trees: seq<Tree>, next: Tree,
                                            s: Tree)
    requires trees != [] && VouchedState(cache, keys, floor, trees, trees[0], s)
    ensures VouchedState(cache, keys, floor, trees + [next], trees[0], s)
    ensures forall i: nat :: i < |keys| && i < |trees| && Reinstated(cache, keys, floor, trees, s, i) ==>
                               Reinstated(cache, keys, floor, trees + [next], s, i)
  {
    forall p: Path, b: Bytes | VouchedInTurn(cache, keys, floor, trees, p, b)
      ensures VouchedInTurn(cache, keys, floor, trees + [next], p, b)
    {
      var i :| 0 <= i < |keys| && i < |trees| && VouchedBy(cache, keys[i], floor, trees[i], p, b);
      assert (trees + [next])[i] == trees[i];
    }
  }

  /** Where a rollback has got to: the turns taken, and what every state so far is. */
  ghost predicate RolledTo(cache: LkgCache, keys: seq<Key>, floor: nat, trees: seq<Tree>, o: Tree, seen0: set<Tree>,
                           files: Tree, seen: set<Tree>) {
    && RollbackRun(cache, keys, floor, trees) && trees[0] == o && trees[|trees| - 1] == files && seen0 <= seen
    && VouchedState(cache, keys, floor, trees, o, files)
    && forall s :: s in seen ==> s in seen0 || VouchedState(cache, keys, floor, trees, o, s)
  }

  /** One key's turn: load its record and restore what it names. */
  method RollbackNext(disk: Disk, cache: LkgCache, keys: seq<Key>, n: nat, floor: nat, ghost trees: seq<Tree>,
                      ghost o: Tree, ghost seen0: set<Tree>)
    returns (r: Result<()>, ghost more: seq<Tree>)
    requires disk.Valid() && n < |keys| && |trees| == n + 1
    requires RolledTo(cache, keys, floor, trees, o, seen0, disk.files, disk.seen)
    requires forall i: nat :: i < n ==> Reinstated(cache, keys, floor, trees, disk.files, i)
    modifies disk
    ensures disk.Valid() && RolledTo(cache, keys, floor, more, o, seen0, disk.files, disk.seen)
    ensures r.Ok? ==> |more| == n + 2 && forall i: nat :: i < n + 1 ==>
              Reinstated(cache, keys, floor, more, disk.files, i)
  {
    more := trees;
    var entry := LoadEntry(disk, cache, keys[n]);
    if entry.Err? {
      r := Err(entry.error);
      return;
    }
    ghost var mid, before := disk.files, disk.seen;
    r := Restore(disk, cache, entry.value, floor, CrossPass);
    TurnVouches(cache, keys, floor, trees, disk.files);
    if r.Ok? {
      assert VouchedBy(cache, keys[n], floor, trees[n], entry.value.dest, disk.files[entry.value.dest]);
      assert Reinstated(cache, keys, floor, trees, disk.files, n);
    }
    LongerRunVouches(cache, keys, floor, trees, disk.files, disk.files);
    more := trees + [disk.files];
    forall s | s in disk.seen && (s !in seen0 || s == disk.files)
      ensures s !in seen0 || s == disk.files ==> VouchedState(cache, keys, floor, more, o, s)
    {
      if s !in before { TurnVouches(cache, keys, floor, trees, s); }
      LongerRunVouches(cache, keys, floor, trees, disk.files, s);
    }
  }

  /** Roll every cached component back, stopping at the first one that cannot be re-verified. */
  method RollbackAll(disk: Disk, cache: LkgCache, keys: seq<Key>, floor: nat)
    returns (r: Result<seq<Key>>, ghost trees: seq<Tree>)
    requires disk.Valid()
    modifies disk
    ensures disk.Valid() && RolledTo(cache, keys, floor, trees, old(disk.files), old(disk.seen), disk.files, disk.seen)
    ensures r.Ok? ==> r.value == keys && |trees| == |keys| + 1
                      && forall i: nat :: i < |keys| ==> Reinstated(cache, keys, floor, trees, disk.files, i)
  {
    ghost var o, seen0 := disk.files, disk.seen;
    var restored: seq<Key> := [];
    trees := [o];
    while |restored| < |keys|
      invariant |restored| <= |keys| && restored == keys[..|restored|] && |trees| == |restored| + 1
      invariant disk.Valid() && RolledTo(cache, keys, floor, trees, o, seen0, disk.files, disk.seen)
      invariant forall i: nat :: i < |restored| ==> Reinstated(cache, keys, floor, trees, disk.files, i)
      decreases |keys| - |restored|
    {
      var done, more := RollbackNext(disk, cache, keys, |restored|, floor, trees, o, seen0);
      trees := more;
      if done.Err? {
        r := Err(done.error);
        return;
      }
      restored := restored + [keys[|restored|]];
    }
    r := Ok(restored);
  }

  /** Records name destinations outside the cache itself, as the beacon writes them. */
  ghost predicate RecordsPointOutside(cache: LkgCache, keys: seq<Key>, o: Tree) {
    forall k :: k in keys && cache.RecordPath(k) in o ==>
      var rec := cache.codec.parse(o[cache.RecordPath(k)]);
      rec.Some? ==> rec.value.dest.dir != cache.dir
  }

  lemma {:induction false} RunKeepsTheCache(cache: LkgCache, keys: seq<Key>, floor: nat, trees: seq<Tree>, i: nat)
    requires RollbackRun(cache, keys, floor, trees) && RecordsPointOutside(cache, keys, trees[0]) && i < |trees|
    ensures SameInDir(trees[0], trees[i], cache.dir)
  {
    if i > 0 {
      RunKeepsTheCache(cache, keys, floor, trees, i - 1);
      assert keys[i - 1] in keys && SameAt(trees[0], trees[i - 1], cache.RecordPath(keys[i - 1]));
      assert RestoreStep(cache, keys[i - 1], floor, trees[i - 1], trees[i]);
      forall p: Path | p.dir == cache.dir ensures SameAt(trees[0], trees[i], p) {
        assert SameAt(trees[0], trees[i - 1], p) && SameAt(trees[i - 1], trees[i], p);
      }
    }
  }

  /** With records that point outside the cache, what was vouched for in turn was vouched for from the start. */
  lemma {:induction false} VouchedFromTheStart(cache: LkgCache, keys: seq<Key>, floor: nat, trees: seq<Tree>, s: Tree)
    requires RollbackRun(cache, keys, floor, trees) && RecordsPointOutside(cache, keys, trees[0])
    requires VouchedState(cache, keys, floor, trees, trees[0], s)
    ensures RollbackState(cache, keys, floor, trees[0], s)
  {
    forall p: Path, b: Bytes | VouchedInTurn(cache, keys, floor, trees, p, b)
      ensures Vouched(cache, keys, floor, trees[0], p, b)
    {
      var i :| 0 <= i < |keys| && i < |trees| && VouchedBy(cache, keys[i], floor, trees[i], p, b);
      RunKeepsTheCache(cache, keys, floor, trees, i);
      assert SameAt(trees[0], trees[i], cache.RecordPath(keys[i]))
          && SameAt(trees[0], trees[i], cache.CachedPath(keys[i]));
      assert VouchedBy(cache, keys[i], floor, trees[0], p, b);
    }
  }

  // ---------------------------------------------------------------- snapshot crash consistency

  /** The pair a cache holds for `key` passes re-verification as record `rec` over bytes `b`. */
  ghost predicate CachePair(cache: LkgCache, t: Tree, key: Key, rec: LkgRecord, b: Bytes) {
    && cache.RecordPath(key) in t && cache.codec.parse(t[cache.RecordPath(key)]) == Some(rec)
    && cache.CachedPath(key) in t && t[cache.CachedPath(key)] == b && cache.DigestOf(b) == rec.digest
  }

  /**
   Whatever crash point a snapshot stops at, a pair that still re-verifies was recorded together: the
   new bytes under the new record, or the old record over the very bytes it was taken of. A half-written
   record, or new bytes under an old record, never passes.
   */
  lemma {:induction false} SnapshotCrashKeepsPairsTogether(cache: LkgCache, o: Tree, s: Tree, key: Key, dest: Path,
                                                           build: Option<nat>, rec: LkgRecord, b: Bytes)
    requires Lawful(cache.codec) && CacheKey(key)
    requires SnapshotState(cache, o, s, key, dest, build) && CachePair(cache, s, key, rec, b)
    ensures || (dest in o && b == o[dest] && rec == RecordOf(EntryFor(cache, key, dest, build, b)))
            || (cache.RecordPath(key) in o && cache.codec.parse(o[cache.RecordPath(key)]) == Some(rec)
                && forall was :: CachePair(cache, o, key, rec, was) ==> was == b || Collision(cache.h, was, b))
  {
    if SameAt(o, s, cache.RecordPath(key)) {
      forall was | CachePair(cache, o, key, rec, was)
        ensures was == b || Collision(cache.h, was, b)
      {
        HexLowerInjective(cache.h.Of(was), cache.h.Of(b));
      }
    } else {
      PrefixOrWhole(s[cache.RecordPath(key)], cache.codec.print_(RecordOf(EntryFor(cache, key, dest, build, o[dest]))));
    }
  }

  lemma {:induction false} PrefixOrWhole(a: Bytes, b: Bytes)
    requires a <= b
    ensures a == b || a < b
  {}

  /**
   `b` may be put at `p`: its digest was recorded for `p`, together with a build at or above the floor, by
   a record that was there before the snapshot, or by the snapshot itself of what its destination held.
   */
  ghost predicate RecordedTogether(cache: LkgCache, keys: seq<Key>, floor: nat, o: Tree, dest: Path, build: Option<nat>,
                                   p: Path, b: Bytes) {
    || (exists k :: k in keys && cache.RecordPath(k) in o
          && RecordAllows(cache, floor, cache.codec.parse(o[cache.RecordPath(k)]), p, b))
    || (dest in o && RecordAllows(cache, floor, Some(LkgRecord(cache.DigestOf(o[dest]), build, dest)), p, b))
  }

  predicate RecordAllows(cache: LkgCache, floor: nat, rec: Option<LkgRecord>, p: Path, b: Bytes) {
    rec.Some? && rec.value.dest == p && rec.value.build.Some? && rec.value.build.value >= floor
        && rec.value.digest == cache.DigestOf(b)
  }

  /**
   Snapshot, crash, manual rollback: from whatever state a snapshot stopped in, a rollback writes to a
   destination only bytes whose digest was recorded for it together with a build at or above the floor.
   */
  lemma {:induction false} SnapshotCrashThenRollback(cache: LkgCache, o: Tree, s: Tree, key: Key, dest: Path,
                                                     build: Option<nat>, keys: seq<Key>, floor: nat, t: Tree, p: Path)
    requires Lawful(cache.codec) && CacheKey(key)
    requires SnapshotState(cache, o, s, key, dest, build) && RollbackState(cache, keys, floor, s, t)
    requires !IsWorkingCopy(p)
    ensures SameAt(s, t, p) || (p in t && RecordedTogether(cache, keys, floor, o, dest, build, p, t[p]))
  {
    if !SameAt(s, t, p) {
      var i :| 0 <= i < |keys| && VouchedBy(cache, keys[i], floor, s, p, t[p]);
      var record := cache.RecordPath(keys[i]);
      assert keys[i] in keys;
      if !SameAt(o, s, record) {
        CacheFilesDiffer(cache, key);
        assert |LKG_TMP_EXT| == 7 && |"json"| == 4;
        assert record == cache.RecordPath(key);
        PrefixOrWhole(s[record], cache.codec.print_(RecordOf(EntryFor(cache, key, dest, build, o[dest]))));
      }
    }
  }
}
