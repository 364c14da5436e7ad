/** The files of a release, their names, and the order in which the trailing
    tier is added (scripts/verify-release-assets.py, scripts/release-candidate.py). */
module ReleaseNames {

  /** `Untiered` is a schema 1 candidate, which binds all targets at once. */
  datatype Tier = Untiered | Core | Trailing

  datatype Target = LinuxX64 | LinuxArm64 | MacArm64 | MacX64 | WindowsX64

  datatype Binary = Gateway | RpcGateway | Repair

  /** A release file. Schema 1 and the core tier share the `trailing == false` names. */
  datatype Name =
    | Receipt(trailing: bool)
    | Manifest(trailing: bool)
    | ManifestBundle(trailing: bool)
    | TargetBundle(target: Target)
    | Archive(binary: Binary, target: Target)
    | Index(trailing: bool)
    | Checksums(trailing: bool)
    | Foreign(text: string)

  function TierTargets(tier: Tier): set<Target> {
    match tier
    case Untiered => {LinuxX64, LinuxArm64, MacArm64, MacX64, WindowsX64}
    case Core => {LinuxX64, LinuxArm64, MacArm64}
    case Trailing => {MacX64, WindowsX64}
  }

  function TargetArchives(t: Target): set<Name> {
    {Archive(Gateway, t), Archive(RpcGateway, t), Archive(Repair, t)}
  }

  function Archives(tier: Tier): set<Name> {
    set t, n | t in TierTargets(tier) && n in TargetArchives(t) :: n
  }

  function MetadataNames(tier: Tier): set<Name> {
    {Index(tier.Trailing?), Checksums(tier.Trailing?)}
  }

  /** Attestation bundles: the only files a manifest does not bind by hash. */
  function Bundles(tier: Tier): set<Name> {
    (set t | t in TierTargets(tier) :: TargetBundle(t)) + {ManifestBundle(tier.Trailing?)}
  }

  /** Every release file a tier owns: archives, metadata and proofs. */
  function TierFiles(tier: Tier): set<Name> {
    Archives(tier) + MetadataNames(tier) + Bundles(tier) + {Receipt(tier.Trailing?), Manifest(tier.Trailing?)}
  }

  /** The same, kind by kind. */
  predicate Owns(tier: Tier, n: Name) {
    match n
    case TargetBundle(t) => t in TierTargets(tier)
    case Archive(_, t) => t in TierTargets(tier)
    case Foreign(_) => false
    case other => other.trailing == tier.Trailing?
  }

  lemma ArchivesByKind(tier: Tier, n: Name)
    ensures n in Archives(tier) <==> n.Archive? && Owns(tier, n)
  {
    if n.Archive? && n.target in TierTargets(tier) {
      assert n in TargetArchives(n.target) by { match n.binary { case Gateway => case RpcGateway => case Repair => } }
    }
  }

  lemma BundlesByKind(tier: Tier, n: Name)
    ensures n in Bundles(tier) <==> (n.TargetBundle? || n.ManifestBundle?) && Owns(tier, n)
  {}

  lemma TierFilesByKind(tier: Tier, n: Name)
    ensures n in TierFiles(tier) <==> Owns(tier, n)
    ensures n in Archives(tier) <==> n.Archive? && Owns(tier, n)
    ensures n in Bundles(tier) <==> (n.TargetBundle? || n.ManifestBundle?) && Owns(tier, n)
  {
    ArchivesByKind(tier, n);
    BundlesByKind(tier, n);
  }

  /** Adding the trailing tier can never touch a core file. */
  lemma TiersAreDisjoint(n: Name)
    ensures !(n in TierFiles(Core) && n in TierFiles(Trailing))
    ensures !(Owns(Core, n) && Owns(Trailing, n))
  {
    TierFilesByKind(Core, n);
    TierFilesByKind(Trailing, n);
  }

  // ----- Names as text -----

  function ArchText(t: Target): string {
    if t.LinuxArm64? || t.MacArm64? then "aarch64" else "x86_64"
  }

  function PlatformText(t: Target): string {
    match t
    case LinuxX64 => "-unknown-linux-gnu"
    case LinuxArm64 => "-unknown-linux-gnu"
    case MacArm64 => "-apple-darwin"
    case MacX64 => "-apple-darwin"
    case WindowsX64 => "-pc-windows-msvc"
  }

  function Extension(t: Target): string {
    if t.WindowsX64? then ".zip" else ".tar.gz"
  }

  function TargetName(t: Target): string {
    ArchText(t) + PlatformText(t)
  }

  function BinaryText(b: Binary): string {
    match b
    case Gateway => "meta-gateway-"
    case RpcGateway => "meta-rpc-gateway-"
    case Repair => "meta-repair-"
  }

  function Text(version: string, n: Name): string {
    match n
    case Receipt(trailing) => if trailing then "candidate-selection-trailing.json" else "candidate-selection.json"
    case Manifest(trailing) => if trailing then "candidate-manifest-trailing.json" else "candidate-manifest.json"
    case ManifestBundle(trailing) =>
      if trailing then "manifest-provenance-trailing.jsonl" else "manifest-provenance.jsonl"
    case TargetBundle(t) => "target-" + TargetName(t) + "-provenance.jsonl"
    case Archive(b, t) => BinaryText(b) + version + "-" + TargetName(t) + Extension(t)
    case Index(trailing) => if trailing then "index-trailing.json" else "index.json"
    case Checksums(trailing) => if trailing then "checksums-trailing.sha256" else "checksums.sha256"
    case Foreign(text) => text
  }

  predicate EndsWith(s: string, suffix: string) {
    |s| >= |suffix| && s[|s| - |suffix|..] == suffix
  }

  predicate IsArchive(name: string) {
    EndsWith(name, ".tar.gz") || EndsWith(name, ".zip")
  }

  /** First, second and eleventh letter tell the kinds of file apart. */
  lemma Marks(version: string, n: Name)
    requires !n.Foreign?
    ensures var s := Text(version, n);
            && |s| >= 2
            && (n.Receipt? ==> s[0] == 'c' && s[1] == 'a' && |s| in {24, 33})
            && (n.Manifest? ==> s[0] == 'c' && s[1] == 'a' && |s| in {23, 32})
            && (n.ManifestBundle? ==> s[0] == 'm' && s[1] == 'a')
            && (n.TargetBundle? ==> s[0] == 't')
            && (n.Archive? ==> s[0] == 'm' && s[1] == 'e')
            && (n.Index? ==> s[0] == 'i')
            && (n.Checksums? ==> s[0] == 'c' && s[1] == 'h')
  {
    match n
    case Receipt(_) =>
    case Manifest(_) =>
    case ManifestBundle(_) =>
    case TargetBundle(t) =>
    case Archive(b, t) => assert BinaryText(b)[0] == 'm' && BinaryText(b)[1] == 'e' && |BinaryText(b)| >= 2;
    case Index(_) =>
    case Checksums(_) =>
  }

  lemma EndsDiffer(u: string, p: string, v: string, q: string, k: nat)
    requires 0 < k <= |p| && k <= |q| && p[|p| - k] != q[|q| - k]
    ensures u + p != v + q
  {
    assert (u + p)[|u + p| - k] == p[|p| - k] && (v + q)[|v + q| - k] == q[|q| - k];
  }

  lemma CancelSuffix(u: string, v: string, suffix: string)
    requires u != v
    ensures u + suffix != v + suffix
  {
    if |u| == |v| {
      var i :| 0 <= i < |u| && u[i] != v[i];
      assert (u + suffix)[i] != (v + suffix)[i];
    }
  }

  /** Targets differ in extension, in the end of the platform, or in the letter before "64". */
  lemma TargetEndsDiffer(u: string, s: Target, v: string, t: Target)
    requires s != t
    ensures u + TargetName(s) + Extension(s) != v + TargetName(t) + Extension(t)
  {
    var x, y := u + TargetName(s), v + TargetName(t);
    if Extension(s) != Extension(t) {
      EndsDiffer(x, Extension(s), y, Extension(t), 1);
    } else {
      assert x != y by {
        PlatformsDiffer(u, s, v, t);
      }
      CancelSuffix(x, y, Extension(s));
    }
  }

  lemma PlatformsDiffer(u: string, s: Target, v: string, t: Target)
    requires s != t && !s.WindowsX64? && !t.WindowsX64?
    ensures u + TargetName(s) != v + TargetName(t)
  {
    var x, y := u + ArchText(s), v + ArchText(t);
    assert u + TargetName(s) == x + PlatformText(s) && v + TargetName(t) == y + PlatformText(t);
    if (s.MacArm64? || s.MacX64?) != (t.MacArm64? || t.MacX64?) {
      EndsDiffer(x, PlatformText(s), y, PlatformText(t), 1);
    } else {
      EndsDiffer(u, ArchText(s), v, ArchText(t), 3);
      CancelSuffix(x, y, PlatformText(s));
    }
  }

  lemma ArchivesDiffer(version: string, m: Name, n: Name)
    requires m.Archive? && n.Archive? && m != n
    ensures Text(version, m) != Text(version, n)
  {
    if m.target != n.target {
      TargetEndsDiffer(BinaryText(m.binary) + version + "-", m.target, BinaryText(n.binary) + version + "-", n.target);
    } else {
      BinariesDiffer(version, m.binary, n.binary, m.target);
    }
  }

  lemma BinariesDiffer(version: string, a: Binary, b: Binary, t: Target)
    requires a != b
    ensures Text(version, Archive(a, t)) != Text(version, Archive(b, t))
  {
    assert |BinaryText(Gateway)| == 13 && |BinaryText(RpcGateway)| == 17 && |BinaryText(Repair)| == 12;
    assert |BinaryText(a)| != |BinaryText(b)|;
  }

  lemma BundlesDiffer(version: string, m: Name, n: Name)
    requires m.TargetBundle? && n.TargetBundle? && m != n
    ensures Text(version, m) != Text(version, n)
  {
    assert |TargetName(LinuxX64)| == 24 && |TargetName(LinuxArm64)| == 25 && |TargetName(MacArm64)| == 20;
    assert |TargetName(MacX64)| == 19 && |TargetName(WindowsX64)| == 22;
  }

  lemma SmallNamesDiffer(version: string, m: Name, n: Name)
    requires (m.Receipt? && n.Receipt?) || (m.Manifest? && n.Manifest?) || (m.ManifestBundle? && n.ManifestBundle?)
             || (m.Index? && n.Index?) || (m.Checksums? && n.Checksums?)
    requires m != n
    ensures Text(version, m) != Text(version, n)
  {}

  /** Whatever the version, no two protocol files have the same name. */
  lemma NamesAreInjective(version: string, m: Name, n: Name)
    requires !m.Foreign? && !n.Foreign? && Text(version, m) == Text(version, n)
    ensures m == n
  {
    Marks(version, m);
    Marks(version, n);
    if m != n {
      if m.Archive? && n.Archive? { ArchivesDiffer(version, m, n); }
      else if m.TargetBundle? && n.TargetBundle? { BundlesDiffer(version, m, n); }
      else { SmallNamesDiffer(version, m, n); }
    }
  }

  // ----- Upload ranks -----

  /** The rank of a file name when the trailing tier is uploaded: receipt,
      manifest bundle, manifest, then by kind. */
  function TextRank(name: string): nat {
    if name == Text("", Receipt(true)) then 0
    else if name == Text("", ManifestBundle(true)) then 1
    else if name == Text("", Manifest(true)) then 2
    else if name == Text("", Index(true)) || name == Text("", Checksums(true)) then 5
    else if IsArchive(name) then 4
    else 3
  }

  /** The same by kind of file. */
  function Rank(n: Name): nat {
    match n
    case Receipt(trailing) => if trailing then 0 else 3
    case ManifestBundle(trailing) => if trailing then 1 else 3
    case Manifest(trailing) => if trailing then 2 else 3
    case Index(trailing) => if trailing then 5 else 3
    case Checksums(trailing) => if trailing then 5 else 3
    case Archive(_, _) => 4
    case TargetBundle(_) => 3
    case Foreign(text) => TextRank(text)
  }

  lemma BundleIsNotArchive(version: string, t: Target)
    ensures !IsArchive(Text(version, TargetBundle(t)))
  {
    var name := Text(version, TargetBundle(t));
    var stem := "target-" + TargetName(t);
    assert name == stem + "-provenance.jsonl" && name[|name| - 1] == 'l';
    assert ".tar.gz"[6] == 'z' && ".zip"[3] == 'p';
  }

  lemma ArchiveIsArchive(version: string, b: Binary, t: Target)
    ensures IsArchive(Text(version, Archive(b, t)))
  {
    var stem := BinaryText(b) + version + "-" + TargetName(t);
    assert Text(version, Archive(b, t)) == stem + Extension(t);
  }

  /** The upload order by name is the order by kind, for every trailing file. */
  lemma RanksAgree(version: string, n: Name)
    requires n in TierFiles(Trailing)
    ensures TextRank(Text(version, n)) == Rank(n)
  {
    TierFilesByKind(Trailing, n);
    if n.Archive? {
      Marks(version, n);
      RankByLetters(Text(version, n));
      ArchiveIsArchive(version, n.binary, n.target);
    } else if n.TargetBundle? {
      Marks(version, n);
      RankByLetters(Text(version, n));
      BundleIsNotArchive(version, n.target);
    } else {
      SmallRanks(version, n);
    }
  }

  lemma RankByLetters(name: string)
    requires |name| >= 2 && (name[0] == 't' || (name[0] == 'm' && name[1] == 'e'))
    ensures TextRank(name) == if IsArchive(name) then 4 else 3
  {
    assert Text("", Receipt(true))[0] == 'c' && Text("", Manifest(true))[0] == 'c'
           && Text("", ManifestBundle(true))[1] == 'a';
    assert Text("", ManifestBundle(true))[0] == 'm' && Text("", Index(true))[0] == 'i'
           && Text("", Checksums(true))[0] == 'c';
  }

  lemma SmallRanks(version: string, n: Name)
    requires n in {Receipt(true), Manifest(true), ManifestBundle(true), Index(true), Checksums(true)}
    ensures TextRank(Text(version, n)) == Rank(n)
  {
    var a, b, c := Text("", Receipt(true)), Text("", ManifestBundle(true)), Text("", Manifest(true));
    assert a[0] == 'c' && b[0] == 'm' && c[0] == 'c' && |a| == 33 && |c| == 32;
    assert Text("", Index(true))[0] == 'i' && |Text("", Checksums(true))| == 25;
  }
}
