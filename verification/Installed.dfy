/** The per-channel record of which build of each component this beacon last installed. */
module Installed {
  import opened Files
  import opened Persist
  import opened TrustStore

  type Builds = map<string, nat>

  datatype BuildsCodec = BuildsCodec(print_: Builds -> Bytes, parse: Bytes -> Option<Builds>)

  ghost predicate LawfulBuilds(c: BuildsCodec) {
    forall m :: c.parse(c.print_(m)) == Some(m)
  }

  datatype InstalledBuildStore = InstalledBuildStore(path: Path, codec: BuildsCodec)

  function BuildsFile(dir: string, ch: Channel): Path {
    Path(dir, "installed-builds-" + ch.Token(), Some("json"))
  }

  /** What `t` records; absent or malformed reads as empty. */
  function LoadedBuilds(store: InstalledBuildStore, t: Tree): Builds {
    if store.path in t && store.codec.parse(t[store.path]).Some? then store.codec.parse(t[store.path]).value else map[]
  }

  function BuildOf(m: Builds, component: string): Option<nat> {
    if component in m then Some(m[component]) else None
  }

  function WithBuild(m: Builds, component: string, build: Option<nat>): Builds {
    match build
    case Some(b) => m[component := b]
    case None => m - {component}
  }

  /** What reading the record as primitive `n` finds: what `t` records, or nothing if the read fails. */
  function FoundBuilds(store: InstalledBuildStore, t: Tree, answers: Schedule, n: nat): Builds {
    if Reply(answers, n).Go? then LoadedBuilds(store, t) else map[]
  }

  method LoadBuilds(disk: Disk, store: InstalledBuildStore) returns (m: Builds)
    requires disk.Valid()
    modifies disk`tick
    ensures m == FoundBuilds(store, disk.files, disk.answers, old(disk.tick)) && disk.tick == old(disk.tick) + 1
  {
    var bytes := disk.Read(store.path);
    if bytes.None? { return map[]; }
    var parsed := store.codec.parse(bytes.value);
    m := if parsed.Some? then parsed.value else map[];
  }

  /** The record file after recording from primitive `n` on: rewritten exactly when the write works, else as it was. */
  ghost predicate RecordedFrom(store: InstalledBuildStore, o: Tree, after: Tree, answers: Schedule, n: nat,
                               component: string, build: Option<nat>) {
    if Publishes(answers, n + 1) then
      store.path in after
      && after[store.path] == store.codec.print_(WithBuild(FoundBuilds(store, o, answers, n), component, build))
    else SameAt(o, after, store.path)
  }

  /** Remember the build now on disk, or forget the component. An unreadable record is rewritten from empty. */
  method Record(disk: Disk, store: InstalledBuildStore, component: string, build: Option<nat>) returns (r: Result<()>)
    requires disk.Valid() && store.path != store.path.WithExtension(JSON_TMP_EXT)
    modifies disk
    ensures disk.Valid() && old(disk.seen) <= disk.seen
    ensures r.Ok? <==> Publishes(disk.answers, old(disk.tick) + 1)
    ensures RecordedFrom(store, old(disk.files), disk.files, disk.answers, old(disk.tick), component, build)
    ensures disk.tick == old(disk.tick) + 1 + Spent(disk.answers, old(disk.tick) + 1)
    ensures SameOutside(old(disk.files), disk.files, {store.path, store.path.WithExtension(JSON_TMP_EXT)})
    ensures forall s :: s in disk.seen ==>
              s in old(disk.seen)
              || SameOutside(old(disk.files), s, {store.path, store.path.WithExtension(JSON_TMP_EXT)})
  {
    var m := LoadBuilds(disk, store);
    match build {
      case Some(b) => m := m[component := b];
      case None => m := m - {component};
    }
    r := WriteJsonAtomic(disk, store.path, store.codec.print_(m));
  }

  /** After a successful record the component reads back as exactly the build recorded. */
  lemma {:induction false} RecordReadsBack(store: InstalledBuildStore, t: Tree, base: Builds, component: string,
                                           build: Option<nat>)
    requires LawfulBuilds(store.codec) && store.path in t
    requires t[store.path] == store.codec.print_(WithBuild(base, component, build))
    ensures BuildOf(LoadedBuilds(store, t), component) == build
    ensures forall c :: c != component ==> BuildOf(LoadedBuilds(store, t), c) == BuildOf(base, c)
  {}

  /** What recording does to the recorded builds, told by the schedule: its own component's and all the others. */
  lemma {:induction false} RecordingByTheSchedule(store: InstalledBuildStore, o: Tree, after: Tree, answers: Schedule,
                                                  n: nat, component: string, build: Option<nat>)
    requires LawfulBuilds(store.codec) && RecordedFrom(store, o, after, answers, n, component, build)
    ensures var before, now := LoadedBuilds(store, o), LoadedBuilds(store, after);
            && BuildOf(now, component) == (if Publishes(answers, n + 1) then build else BuildOf(before, component))
            && forall c :: c != component ==>
                 BuildOf(now, c) ==
                 if Publishes(answers, n + 1) && !Reply(answers, n).Go? then None else BuildOf(before, c)
  {
    if Publishes(answers, n + 1) {
      RecordReadsBack(store, after, FoundBuilds(store, o, answers, n), component, build);
    }
  }

  /** The record is kept apart from the trust files it sits beside. */
  lemma {:induction false} BuildsFileIsNoTrustFile(dir: string, a: Channel, b: Channel)
    ensures BuildsFile(dir, a) != StateFile(dir, b) && BuildsFile(dir, a) != LegacyFile(dir)
    ensures BuildsFile(dir, a).WithExtension(JSON_TMP_EXT) != StateFile(dir, b)
    ensures BuildsFile(dir, a).WithExtension(JSON_TMP_EXT) != LegacyFile(dir)
  {
    assert BuildsFile(dir, a).stem[0] == 'i' && StateFile(dir, b).stem[0] == 't' && LegacyFile(dir).stem[0] == 't';
  }
}
