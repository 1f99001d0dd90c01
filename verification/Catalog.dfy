/** The default catalog: six components installed beside the beacon, three of them under a second name. */
module Catalog {
  import opened Files
  import opened Components
  import opened Apply
  import opened Plan
  import opened Broker
  import opened Runs

  function Exe(bin: string, platform: Platform, stem: string): Path {
    Path(bin, stem, if platform.os == "windows" then Some("exe") else None)
  }

  function PackageMethod(platform: Platform): InstallMethod {
    if platform.os == "windows" then WindowsMsi else if platform.os == "macos" then MacosPkg else LinuxDeb
  }

  function AlphaDefaultsIn(bin: string, platform: Platform): Plan.Catalog {
    [ ComponentTarget("dig-node", PackageMethod(platform), Exe(bin, platform, "dig-node"), [Exe(bin, platform, "dign")],
                      Some("net.dignetwork.dig-node"), SafeToProbe),
      ComponentTarget("digstore", RawBinary, Exe(bin, platform, "digstore"), [Exe(bin, platform, "digs")], None,
                      SafeToProbe),
      ComponentTarget("dig-dns", RawBinary, Exe(bin, platform, "dig-dns"), [Exe(bin, platform, "digd")], None,
                      SafeToProbe),
      ComponentTarget(BEACON_COMPONENT_NAME, RawBinary, Exe(bin, platform, BEACON_COMPONENT_NAME), [], None,
                      SafeToProbe),
      ComponentTarget("dig-app", RawBinary, Exe(bin, platform, "dig-app"), [], None, ArtifactDigest),
      ComponentTarget("dig-chat", RawBinary, Exe(bin, platform, "dig-chat"), [], None, ArtifactDigest) ]
  }

  /** The file stem of the `i`-th file the catalog claims. */
  const STEMS: seq<string> :=
      ["dig-node", "dign", "digstore", "digs", "dig-dns", "digd", "dig-updater", "dig-app", "dig-chat"]

  lemma {:induction false} StemsAreDistinct()
    ensures forall i, j :: 0 <= i < j < |STEMS| ==> STEMS[i] != STEMS[j]
  {
    assert STEMS[0][4] == 'n' && STEMS[2][4] == 't' && STEMS[8][4] == 'c' && STEMS[4][4] == 'd' && STEMS[7][4] == 'a';
    assert STEMS[1][3] == 'n' && STEMS[3][3] == 's' && STEMS[5][3] == 'd';
    assert |STEMS[0]| == 8 && |STEMS[1]| == 4 && |STEMS[2]| == 8 && |STEMS[3]| == 4 && |STEMS[4]| == 7
        && |STEMS[5]| == 4;
    assert |STEMS[6]| == 11 && |STEMS[7]| == 7 && |STEMS[8]| == 8;
  }

  lemma {:induction false} ExeIsOrdinary(bin: string, platform: Platform, stem: string)
    ensures Ordinary(Exe(bin, platform, stem)) && Exe(bin, platform, stem).ext != Some("json")
  {
    ExtensionsDiffer();
    assert |"exe"| == 3 && |VERIFIED_RAW_EXT| == 20 && |SUPERSEDED_EXT| == 15 && |LKG_TMP_EXT| == 7 && |"json"| == 4;
  }

  /** Which of the claimed files belong to the `k`-th target. */
  function FirstStem(k: nat): nat
    requires k < 6
  {
    if k <= 3 then 2 * k else k + 3
  }

  lemma {:induction false} TargetFiles(bin: string, platform: Platform, k: nat)
    requires k < 6
    ensures var t := AlphaDefaultsIn(bin, platform)[k];
            && |t.Binaries()| == (if k < 3 then 2 else 1)
            && forall i :: 0 <= i < |t.Binaries()| ==> t.Binaries()[i] == Exe(bin, platform, STEMS[FirstStem(k) + i])
  {}

  /** Two claimed files with different stems share neither a name nor a working file. */
  lemma {:induction false} FilesAreApart(bin: string, platform: Platform, x: string, y: string)
    requires x != y
    ensures Exe(bin, platform, x) !in Siblings(Exe(bin, platform, y))
  {}

  /** The files of two targets have different numbers. */
  lemma {:induction false} NumbersDiffer(j: nat, k: nat, i: nat, l: nat)
    requires j < 6 && k < 6 && j != k && i < (if j < 3 then 2 else 1) && l < (if k < 3 then 2 else 1)
    ensures FirstStem(j) + i < |STEMS| && FirstStem(k) + l < |STEMS|
    ensures STEMS[FirstStem(j) + i] != STEMS[FirstStem(k) + l]
  {
    StemsAreDistinct();
    assert FirstStem(j) + i != FirstStem(k) + l;
  }

  lemma {:induction false} TargetFilesAreApart(bin: string, platform: Platform, j: nat, k: nat, i: nat, l: nat)
    requires j < 6 && k < 6 && j != k
    requires i < |AlphaDefaultsIn(bin, platform)[j].Binaries()| && l < |AlphaDefaultsIn(bin, platform)[k].Binaries()|
    ensures var all := AlphaDefaultsIn(bin, platform);
            all[j].Binaries()[i] !in Siblings(all[k].Binaries()[l])
  {
    TargetFiles(bin, platform, j);
    TargetFiles(bin, platform, k);
    NumbersDiffer(j, k, i, l);
    FilesAreApart(bin, platform, STEMS[FirstStem(j) + i], STEMS[FirstStem(k) + l]);
  }

  lemma {:induction false} NotInFootprint(m: Path, members: seq<Path>)
    requires forall l :: 0 <= l < |members| ==> m !in Siblings(members[l])
    ensures m !in Footprint(members)
  {}

  /** No two components claim one file, or a working file of the other's. */
  lemma {:induction false} TargetsAreApart(bin: string, platform: Platform, j: nat, k: nat)
    requires j < 6 && k < 6 && j != k
    ensures forall m :: m in AlphaDefaultsIn(bin, platform)[j].Binaries() ==>
              m !in Footprint(AlphaDefaultsIn(bin, platform)[k].Binaries())
  {
    var a, b := AlphaDefaultsIn(bin, platform)[j].Binaries(), AlphaDefaultsIn(bin, platform)[k].Binaries();
    forall i | 0 <= i < |a| ensures a[i] !in Footprint(b) {
      forall l | 0 <= l < |b| ensures a[i] !in Siblings(b[l]) {
        TargetFilesAreApart(bin, platform, j, k, i, l);
      }
      NotInFootprint(a[i], b);
    }
  }

  /** Every default target can be applied and none is held, wherever the beacon keeps its binaries. */
  lemma {:induction false} DefaultsAreApplicable(inst: Installer, bin: string, platform: Platform)
    requires bin !in inst.Own()
    ensures forall t :: t in AlphaDefaultsIn(bin, platform) ==> TargetApplicable(inst, t) && !Held(t)
  {
    StemsAreDistinct();
    assert |BEACON_COMPONENT_NAME| == 11 && |"dig-node"| == 8;
    forall k | 0 <= k < 6
      ensures TargetApplicable(inst, AlphaDefaultsIn(bin, platform)[k]) && !Held(AlphaDefaultsIn(bin, platform)[k])
    {
      TargetFiles(bin, platform, k);
      var t := AlphaDefaultsIn(bin, platform)[k];
      forall i | 0 <= i < |t.Binaries()| ensures Ordinary(t.Binaries()[i]) && t.Binaries()[i].ext != Some("json") {
        ExeIsOrdinary(bin, platform, STEMS[FirstStem(k) + i]);
      }
    }
  }

  /** So what a manifest that names each component once plans from the defaults is apart, as the fixed point asks. */
  lemma {:induction false} DefaultsAreApart(bin: string, platform: Platform)
    ensures CatalogApart(AlphaDefaultsIn(bin, platform))
  {
    forall j: nat, k: nat | j < 6 && k < 6 && j != k
      ensures TargetApart(AlphaDefaultsIn(bin, platform)[j], AlphaDefaultsIn(bin, platform)[k])
    {
      TargetsAreApart(bin, platform, j, k);
    }
  }
}
