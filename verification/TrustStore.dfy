/**
 The monotonic trust state, one file per channel. Loading prefers the channel's own file; nightly alone
 adopts the legacy single-channel file. Saving overwrites the four marks and carries every other key.
 */
module TrustStore {
  import opened Files
  import opened Persist

  type U32 = n: nat | n < 0x1_0000_0000
  type U64 = n: nat | n < 0x1_0000_0000_0000_0000

  datatype Channel = Nightly | Stable {
    function Token(): string { if Nightly? then "nightly" else "stable" }
  }

  datatype TrustState = TrustState(rootVersion: U32, sequence: U64, generated: U64, rollbackFloorBuild: U64) {
    /** Fold an accepted manifest's marks in: each mark moves to the larger value. */
    function Advance(m: TrustState): TrustState {
      TrustState(
        if rootVersion < m.rootVersion then m.rootVersion else rootVersion,
        if sequence < m.sequence then m.sequence else sequence,
        if generated < m.generated then m.generated else generated,
        if rollbackFloorBuild < m.rollbackFloorBuild then m.rollbackFloorBuild else rollbackFloorBuild)
    }

    predicate AtMost(later: TrustState) {
      rootVersion <= later.rootVersion && sequence <= later.sequence
      && generated <= later.generated && rollbackFloorBuild <= later.rollbackFloorBuild
    }
  }

  const INITIAL := TrustState(0, 0, 0, 0)

  datatype Value = Num(n: int) | OtherValue(text: string)
  type JsonObject = map<string, Value>

  /** The JSON text form of an object. */
  datatype JsonCodec = JsonCodec(print_: JsonObject -> Bytes, parse: Bytes -> Option<JsonObject>)

  ghost predicate LawfulJson(c: JsonCodec) {
    forall o :: c.parse(c.print_(o)) == Some(o)
  }

  datatype LoadedState = LoadedState(state: TrustState, raw: JsonObject)

  const ROOT_VERSION := "root_version"
  const SEQUENCE := "sequence"
  const GENERATED := "generated"
  const FLOOR := "rollback_floor_build"
  const MARKS: set<string> := {ROOT_VERSION, SEQUENCE, GENERATED, FLOOR}

  lemma {:induction false} MarksAreDistinct()
    ensures ROOT_VERSION != SEQUENCE && ROOT_VERSION != GENERATED && ROOT_VERSION != FLOOR
    ensures SEQUENCE != GENERATED && SEQUENCE != FLOOR && GENERATED != FLOOR
  {
    assert |ROOT_VERSION| == 12 && |SEQUENCE| == 8 && |GENERATED| == 9 && |FLOOR| == 20;
  }

  /** A required mark: missing or not an unsigned 64-bit number is corruption, never zero. */
  function ReadU64(raw: JsonObject, key: string): Result<U64> {
    if key !in raw then Err(StateCorrupt)
    else match raw[key]
         case Num(n) => if 0 <= n < 0x1_0000_0000_0000_0000 then Ok(n) else Err(StateCorrupt)
         case OtherValue(_) => Err(StateCorrupt)
  }

  function ParseMarks(raw: JsonObject): Result<TrustState> {
    var rootVersion :- ReadU64(raw, ROOT_VERSION);
    if rootVersion >= 0x1_0000_0000 then Err(StateCorrupt) else
      var sequence :- ReadU64(raw, SEQUENCE);
      var generated :- ReadU64(raw, GENERATED);
      var floor :- ReadU64(raw, FLOOR);
      Ok(TrustState(rootVersion, sequence, generated, floor))
  }

  function StateFile(dir: string, ch: Channel): Path {
    Path(dir, "trust-state-" + ch.Token(), Some("json"))
  }

  function LegacyFile(dir: string): Path {
    Path(dir, "trust-state", Some("json"))
  }

  /** One channel's store: its own file, and the legacy file nightly may adopt. */
  datatype TrustStateStore = TrustStateStore(path: Path, legacy: Option<Path>, codec: JsonCodec)

  function ForChannel(dir: string, ch: Channel, codec: JsonCodec): TrustStateStore {
    TrustStateStore(StateFile(dir, ch), if ch.Nightly? then Some(LegacyFile(dir)) else None, codec)
  }

  /** What `t` says the channel's state is. */
  function LoadFrom(store: TrustStateStore, t: Tree): Result<LoadedState> {
    if store.path in t then Parsed(store.codec, t[store.path])
    else if store.legacy.Some? && store.legacy.value in t then Parsed(store.codec, t[store.legacy.value])
    else Ok(LoadedState(INITIAL, map[]))
  }

  function Parsed(codec: JsonCodec, bytes: Bytes): Result<LoadedState> {
    var raw := codec.parse(bytes);
    if raw.None? then Err(StateCorrupt) else
      var state :- ParseMarks(raw.value);
      Ok(LoadedState(state, raw.value))
  }

  /** Load: a read that fails for any reason but absence is an error, not a fresh start. */
  method Load(disk: Disk, store: TrustStateStore) returns (r: Result<LoadedState>)
    requires disk.Valid()
    modifies disk`tick
    ensures r == LoadFrom(store, disk.files) || r == Err(Io)
    ensures Quiet(disk.answers) ==> r == LoadFrom(store, disk.files)
  {
    if store.path in disk.files {
      var bytes := disk.Read(store.path);
      return if bytes.Some? then Parsed(store.codec, bytes.value) else Err(Io);
    }
    if store.legacy.Some? && store.legacy.value in disk.files {
      var bytes := disk.Read(store.legacy.value);
      return if bytes.Some? then Parsed(store.codec, bytes.value) else Err(Io);
    }
    r := Ok(LoadedState(INITIAL, map[]));
  }

  function SavedObject(state: TrustState, loaded: LoadedState): JsonObject {
    loaded.raw[ROOT_VERSION := Num(state.rootVersion)][SEQUENCE := Num(state.sequence)]
    [GENERATED := Num(state.generated)][FLOOR := Num(state.rollbackFloorBuild)]
  }

  /** Clone the loaded object, insert the four marks, and publish it atomically at the channel's own path. */
  method Save(disk: Disk, store: TrustStateStore, state: TrustState, loaded: LoadedState) returns (r: Result<()>)
    requires disk.Valid() && store.path != store.path.WithExtension(JSON_TMP_EXT)
    modifies disk
    ensures disk.Valid() && old(disk.seen) <= disk.seen
    ensures var bytes := store.codec.print_(SavedObject(state, loaded));
            && (r.Ok? ==> store.path in disk.files && disk.files[store.path] == bytes)
            && (r.Err? ==> SameAt(old(disk.files), disk.files, store.path))
            && AtomicState(old(disk.files), disk.files, store.path, bytes)
            && forall s :: s in disk.seen ==> s in old(disk.seen) || AtomicState(old(disk.files), s, store.path, bytes)
    ensures Quiet(disk.answers) ==> r.Ok?
  {
    var saved := loaded.raw;
    saved := saved[ROOT_VERSION := Num(state.rootVersion)];
    saved := saved[SEQUENCE := Num(state.sequence)];
    saved := saved[GENERATED := Num(state.generated)];
    saved := saved[FLOOR := Num(state.rollbackFloorBuild)];
    r := WriteJsonAtomic(disk, store.path, store.codec.print_(saved));
  }

  /** Load after save returns the saved marks, and every other key survives with its value. */
  lemma {:induction false} LoadAfterSave(store: TrustStateStore, t: Tree, state: TrustState, loaded: LoadedState)
    requires LawfulJson(store.codec)
    requires store.path in t && t[store.path] == store.codec.print_(SavedObject(state, loaded))
    ensures LoadFrom(store, t).Ok? && LoadFrom(store, t).value.state == state
    ensures var raw := LoadFrom(store, t).value.raw;
            raw.Keys == loaded.raw.Keys + MARKS && forall k :: k in loaded.raw && k !in MARKS ==>
                raw[k] == loaded.raw[k]
  {
    MarksAreDistinct();
  }

  /** The mark is there, and an unsigned number of the width the code reads it at. */
  predicate HasMark(raw: JsonObject, key: string) {
    key in raw && raw[key].Num? && 0 <= raw[key].n < 0x1_0000_0000_0000_0000
    && (key == ROOT_VERSION ==> raw[key].n < 0x1_0000_0000)
  }

  /** A state file that exists loads exactly when it has every mark; anything less is corruption, never zero. */
  lemma {:induction false} LoadsIffEveryMarkIsThere(store: TrustStateStore, t: Tree, raw: JsonObject)
    requires store.path in t && store.codec.parse(t[store.path]) == Some(raw)
    ensures LoadFrom(store, t).Ok? <==> forall key :: key in MARKS ==> HasMark(raw, key)
    ensures LoadFrom(store, t).Err? ==> LoadFrom(store, t).error == StateCorrupt
    ensures LoadFrom(store, t).Ok? ==>
              var s := LoadFrom(store, t).value.state;
              && raw[ROOT_VERSION] == Num(s.rootVersion) && raw[SEQUENCE] == Num(s.sequence)
              && raw[GENERATED] == Num(s.generated) && raw[FLOOR] == Num(s.rollbackFloorBuild)
  {
    MarksAreDistinct();
    assert forall key :: key in MARKS <==> key == ROOT_VERSION || key == SEQUENCE || key == GENERATED || key == FLOOR;
  }

  // ---------------------------------------------------------------- whole runs

  /** The channel's effective marks: its own file, else (nightly) the legacy file, else all zero. */
  function Effective(dir: string, codec: JsonCodec, ch: Channel, t: Tree): Result<TrustState> {
    var loaded :- LoadFrom(ForChannel(dir, ch, codec), t);
    Ok(loaded.state)
  }

  lemma {:induction false} TrustFilesDiffer(dir: string, a: Channel, b: Channel)
    ensures a != b ==> StateFile(dir, a) != StateFile(dir, b)
    ensures StateFile(dir, a) != LegacyFile(dir)
    ensures StateFile(dir, a) != StateFile(dir, b).WithExtension(JSON_TMP_EXT)
    ensures LegacyFile(dir) != StateFile(dir, b).WithExtension(JSON_TMP_EXT)
  {
    assert |Nightly.Token()| == 7 && |Stable.Token()| == 6;
    assert |StateFile(dir, a).stem| == 12 + |a.Token()| && |LegacyFile(dir).stem| == 11;
    assert |JSON_TMP_EXT| == 8 && |"json"| == 4;
  }

  /** The trees hold the same trust files. */
  ghost predicate SameTrust(dir: string, a: Tree, b: Tree) {
    SameAt(a, b, StateFile(dir, Nightly)) && SameAt(a, b, StateFile(dir, Stable)) && SameAt(a, b, LegacyFile(dir))
  }

  lemma {:induction false} SameTrustSameMarks(dir: string, codec: JsonCodec, a: Tree, b: Tree, any: Channel)
    requires SameTrust(dir, a, b)
    ensures Effective(dir, codec, any, a) == Effective(dir, codec, any, b)
  {}

  /**
   One pass on channel `ch`, ended or crashed, took `a` to `b`: either no trust file changed, or the
   pass had loaded the channel's state and published it advanced by some manifest's marks.
   */
  ghost predicate TrustStep(dir: string, codec: JsonCodec, ch: Channel, a: Tree, b: Tree) {
    || SameTrust(dir, a, b)
    || (exists m: TrustState :: PublishedStep(dir, codec, ch, m, a, b))
  }

  ghost predicate PublishedStep(dir: string, codec: JsonCodec, ch: Channel, m: TrustState, a: Tree, b: Tree) {
    var own := StateFile(dir, ch);
    var loaded := LoadFrom(ForChannel(dir, ch, codec), a);
    && loaded.Ok? && own in b
    && b[own] == codec.print_(SavedObject(loaded.value.state.Advance(m), loaded.value))
    && SameAt(a, b, LegacyFile(dir))
    && forall other: Channel :: other != ch ==> SameAt(a, b, StateFile(dir, other))
  }

  /** Marks never decrease from `a` to `b`; a corrupt state stays corrupt. */
  ghost predicate NeverLowered(a: Result<TrustState>, b: Result<TrustState>) {
    if a.Ok? then b.Ok? && a.value.AtMost(b.value) else b == a
  }

  /** One pass never lowers its own channel's effective marks and leaves the other channel's alone. */
  lemma {:induction false} PassKeepsMarks(dir: string, codec: JsonCodec, ch: Channel, a: Tree, b: Tree, any: Channel)
    requires LawfulJson(codec) && TrustStep(dir, codec, ch, a, b)
    ensures NeverLowered(Effective(dir, codec, any, a), Effective(dir, codec, any, b))
    ensures any != ch ==> Effective(dir, codec, any, a) == Effective(dir, codec, any, b)
  {
    if !SameTrust(dir, a, b) {
      var m: TrustState :| PublishedStep(dir, codec, ch, m, a, b);
      if any == ch {
        var loaded := LoadFrom(ForChannel(dir, ch, codec), a).value;
        LoadAfterSave(ForChannel(dir, ch, codec), b, loaded.state.Advance(m), loaded);
      }
    }
  }

  /** A run of passes: the channel each tracked, and the disk before, between and after them. */
  ghost predicate Run(dir: string, codec: JsonCodec, channels: seq<Channel>, disks: seq<Tree>) {
    |disks| == |channels| + 1
    && forall i :: 0 <= i < |channels| ==> TrustStep(dir, codec, channels[i], disks[i], disks[i + 1])
  }

  lemma {:induction false} NeverLoweredTransitive(a: Result<TrustState>, b: Result<TrustState>, c: Result<TrustState>)
    requires NeverLowered(a, b) && NeverLowered(b, c)
    ensures NeverLowered(a, c)
  {}

  lemma {:induction false} ChainNeverLowered(rs: seq<Result<TrustState>>, i: nat, j: nat)
    requires i <= j < |rs| && forall k :: 0 <= k < |rs| - 1 ==> NeverLowered(rs[k], rs[k + 1])
    ensures NeverLowered(rs[i], rs[j])
    decreases j
  {
    if i < j {
      ChainNeverLowered(rs, i, j - 1);
      NeverLoweredTransitive(rs[i], rs[j - 1], rs[j]);
    }
  }

  /** Over any run, with any channel switches, no channel's effective marks ever decrease. */
  lemma {:induction false} MarksNeverDecrease(dir: string, codec: JsonCodec, channels: seq<Channel>, disks: seq<Tree>,
                                              any: Channel, i: nat, j: nat)
    requires LawfulJson(codec) && Run(dir, codec, channels, disks) && i <= j < |disks|
    ensures NeverLowered(Effective(dir, codec, any, disks[i]), Effective(dir, codec, any, disks[j]))
  {
    var marks := seq(|disks|, k requires 0 <= k < |disks| => Effective(dir, codec, any, disks[k]));
    forall k | 0 <= k < |marks| - 1 ensures NeverLowered(marks[k], marks[k + 1]) {
      PassKeepsMarks(dir, codec, channels[k], disks[k], disks[k + 1], any);
    }
    ChainNeverLowered(marks, i, j);
  }

  /** Passes on one channel alone leave the other channel's marks exactly as they were. */
  lemma {:induction false} OtherChannelUntouched(dir: string, codec: JsonCodec, channels: seq<Channel>,
                                                 disks: seq<Tree>, any: Channel)
    requires LawfulJson(codec) && Run(dir, codec, channels, disks) && any !in channels
    ensures Effective(dir, codec, any, disks[0]) == Effective(dir, codec, any, disks[|disks| - 1])
    decreases |channels|
  {
    if channels != [] {
      var n := |channels| - 1;
      assert channels[n] in channels;
      OtherChannelUntouched(dir, codec, channels[..n], disks[..n + 1], any);
      PassKeepsMarks(dir, codec, channels[n], disks[n], disks[n + 1], any);
    }
  }
}
