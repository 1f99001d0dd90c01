/** The planned component an update pass acts on, and the binary set it owns on disk. */
module Components {
  import opened Files

  datatype InstallMethod = RawBinary | WindowsMsi | MacosPkg | LinuxDeb
  datatype VersionEvidence = SafeToProbe | ArtifactDigest | UnsafeToProbe {
    predicate RequiresExecution() { SafeToProbe? }
  }
  datatype UpdateAction = Install | Update | Skip
  datatype DetectedVersion = Absent | Present(raw: string)

  const BEACON_COMPONENT_NAME := "dig-updater"

  /** A build variant of this platform: its signed digest. Its staged bytes belong to the worker. */
  datatype PlannedVariant = PlannedVariant(variant: Option<string>, expectedDigest: string)

  datatype PlannedComponent = PlannedComponent(
    name: string,
    method_: InstallMethod,
    dest: Path,
    aliases: seq<Path>,
    version: string,
    build: nat,
    variants: seq<PlannedVariant>,
    action: UpdateAction,
    installedBuild: Option<nat>,
    evidence: VersionEvidence)
  {
    /** The whole binary set: the primary, then its byte-identical aliases. */
    function Binaries(): seq<Path> { [dest] + aliases }
  }

  const VERIFIED_RAW_EXT := "dig-updater-verified"
  const SUPERSEDED_EXT := "dig-updater-old"
  const LKG_TMP_EXT := "lkg-tmp"
  const RESERVED_EXTS: set<string> := {VERIFIED_RAW_EXT, SUPERSEDED_EXT, LKG_TMP_EXT}

  /** A destination whose own extension is none of the updater's working extensions. */
  predicate Ordinary(p: Path) {
    p.ext.None? || p.ext.value !in RESERVED_EXTS
  }

  /** The destination and the working files the updater keeps beside it. */
  function Siblings(p: Path): set<Path> {
    {p, p.WithExtension(VERIFIED_RAW_EXT), p.WithExtension(SUPERSEDED_EXT), p.WithExtension(LKG_TMP_EXT)}
  }

  /** Every path the updater may write while replacing `members`. */
  function Footprint(members: seq<Path>): set<Path> {
    set m, s | m in members && s in Siblings(m) :: s
  }

  /** No two members share a directory and stem, so their working files never meet. */
  predicate BinarySet(members: seq<Path>) {
    && (forall i :: 0 <= i < |members| ==> Ordinary(members[i]))
    && (forall i, j :: 0 <= i < j < |members| ==>
          members[i].dir != members[j].dir || members[i].stem != members[j].stem)
  }

  lemma {:induction false} ExtensionsDiffer()
    ensures VERIFIED_RAW_EXT != SUPERSEDED_EXT && VERIFIED_RAW_EXT != LKG_TMP_EXT && SUPERSEDED_EXT != LKG_TMP_EXT
  {
    assert |VERIFIED_RAW_EXT| == 20 && |SUPERSEDED_EXT| == 15 && |LKG_TMP_EXT| == 7;
  }

  lemma {:induction false} SiblingsAreFour(p: Path)
    requires Ordinary(p)
    ensures p != p.WithExtension(VERIFIED_RAW_EXT) && p != p.WithExtension(SUPERSEDED_EXT)
    ensures p != p.WithExtension(LKG_TMP_EXT)
    ensures p.WithExtension(VERIFIED_RAW_EXT) != p.WithExtension(SUPERSEDED_EXT)
  {
    ExtensionsDiffer();
  }

  /** Working on one member never touches another one or its working files. */
  lemma {:induction false} MembersAreApart(members: seq<Path>, i: nat, j: nat)
    requires BinarySet(members) && i < |members| && j < |members| && i != j
    ensures Siblings(members[i]) !! Siblings(members[j])
  {}

  lemma {:induction false} FootprintHolds(members: seq<Path>, i: nat)
    requires i < |members|
    ensures Siblings(members[i]) <= Footprint(members)
  {
    assert members[i] in members;
  }
}
