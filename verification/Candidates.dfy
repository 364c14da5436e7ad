/** Candidates, receipts and manifests, and the checks a set of release files
    must pass (scripts/release-candidate.py). Hashes are taken as injective: a
    recorded hash is modelled by the bytes it names. Attestation and run checks
    are facts of the world the model does not look into. */
module Candidates {
  import opened Wrappers
  import opened ReleaseNames

  type Blob = string

  datatype Source = Source(sha: string, version: string, tag: string)

  datatype ManifestDoc = ManifestDoc(
    tier: Tier, source: Source, runId: nat, runAttempt: nat,
    archives: map<Name, Blob>, metadata: map<Name, Blob>
  )

  /** An accepted candidate; `manifest` stands for the manifest hash it records. */
  datatype Selection = Selection(tier: Tier, runId: nat, runAttempt: nat, manifest: ManifestDoc)

  /** File contents. A receipt is read as JSON; `layout` is how it is written, "" as
      staging writes it. */
  datatype Content =
    | ReceiptFile(selection: Selection, layout: string)
    | ManifestFile(manifest: ManifestDoc)
    | Data(blob: Blob)

  type Files = map<Name, Content>

  /** What does not change between runs: the tagged source, the selections whose
      candidate and CI runs are green, the bundles each candidate retained, which
      bundles verify for which selection, and which sets of archives, index and
      checksums verify as flat release assets. */
  datatype World = World(
    source: Source,
    green: set<Selection>,
    bundles: map<Selection, map<Name, Blob>>,
    attested: set<(Selection, Name, Blob)>,
    flat: set<map<Name, Blob>>
  )

  /** `match_manifest_selection`. */
  predicate MatchManifest(w: World, sel: Selection, m: ManifestDoc) {
    && m == sel.manifest
    && m.tier == sel.tier && m.runId == sel.runId && m.runAttempt == sel.runAttempt
    && m.source == w.source
    && m.archives.Keys == Archives(sel.tier) && m.metadata.Keys == MetadataNames(sel.tier)
  }

  predicate Approved(w: World, sel: Selection) {
    sel in w.green && MatchManifest(w, sel, sel.manifest)
  }

  predicate IsBundle(n: Name) {
    n.TargetBundle? || n.ManifestBundle?
  }

  predicate IsReceiptOf(c: Content, sel: Selection) {
    c.ReceiptFile? && c.selection == sel
  }

  /** The bytes a selection binds for each file that is not a bundle. */
  function Bound(sel: Selection, n: Name): Content {
    match n
    case Receipt(_) => ReceiptFile(sel, "")
    case Manifest(_) => ManifestFile(sel.manifest)
    case Archive(_, _) => Data(if n in sel.manifest.archives then sel.manifest.archives[n] else "")
    case _ => Data(if n in sel.manifest.metadata then sel.manifest.metadata[n] else "")
  }

  /** `c` is what selection `sel` allows under the name `n`. */
  predicate Genuine(w: World, sel: Selection, n: Name, c: Content) {
    if IsBundle(n) then c.Data? && (sel, n, c.blob) in w.attested
    else if n.Receipt? then IsReceiptOf(c, sel)
    else c == Bound(sel, n)
  }

  // ----- verify_prepared -----

  function FlatNames(tier: Tier): set<Name> {
    Archives(tier) + MetadataNames(tier)
  }

  /** Archives, index and checksums of a tier are there and verify as a flat set. */
  predicate FlatOk(w: World, files: Files, tier: Tier) {
    && (forall n :: n in FlatNames(tier) ==> n in files && files[n].Data?)
    && (map n | n in FlatNames(tier) && n in files && files[n].Data? :: files[n].blob) in w.flat
  }

  /** The bytes the selection's manifest records verify as a flat set. */
  predicate FlatSelection(w: World, sel: Selection) {
    sel.manifest.archives + sel.manifest.metadata in w.flat
  }

  lemma FlatName(tier: Tier, n: Name)
    requires n in FlatNames(tier)
    ensures Owns(tier, n) && !IsBundle(n) && !n.Receipt? && !n.Manifest? && (n in Archives(tier) <==> n.Archive?)
  {
    TierFilesByKind(tier, n);
  }

  /** Whether genuine files verify as a flat set is decided by the selection alone. */
  lemma FlatIsSelected(w: World, files: Files, sel: Selection)
    requires Approved(w, sel)
    requires forall n :: n in FlatNames(sel.tier) ==> n in files && files[n] == Bound(sel, n)
    ensures FlatOk(w, files, sel.tier) <==> FlatSelection(w, sel)
  {
    var recorded := sel.manifest.archives + sel.manifest.metadata;
    forall n | n in FlatNames(sel.tier) ensures files[n] == Data(recorded[n]) { FlatName(sel.tier, n); }
    assert (map n | n in FlatNames(sel.tier) && n in files && files[n].Data? :: files[n].blob) == recorded;
  }

  predicate ValidCandidate(w: World, sel: Selection) {
    && Approved(w, sel) && FlatSelection(w, sel)
    && sel in w.bundles && w.bundles[sel].Keys == Bundles(sel.tier)
    && forall n :: n in Bundles(sel.tier) ==> (sel, n, w.bundles[sel][n]) in w.attested
  }

  function CandidateFile(w: World, sel: Selection, n: Name): Content {
    if IsBundle(n) then Data(if sel in w.bundles && n in w.bundles[sel] then w.bundles[sel][n] else "")
    else Bound(sel, n)
  }

  /** `stage_candidate`: the candidate's files, while its artifacts are retained. */
  function Stage(w: World, retained: set<Selection>, sel: Selection): Option<Files> {
    if sel in retained && ValidCandidate(w, sel)
    then Some(map n | n in TierFiles(sel.tier) :: CandidateFile(w, sel, n))
    else None
  }

  /** A file of a valid candidate is genuine. */
  lemma CandidateIsGenuine(w: World, sel: Selection, n: Name)
    requires ValidCandidate(w, sel) && Owns(sel.tier, n)
    ensures Genuine(w, sel, n, CandidateFile(w, sel, n))
  {
    TierFilesByKind(sel.tier, n);
  }

  // ----- verify_published_proofs -----

  predicate BundleOk(w: World, files: Files, sel: Selection, bundle: Name) {
    bundle in files && files[bundle].Data? && (sel, bundle, files[bundle].blob) in w.attested
  }

  predicate ArchiveOk(w: World, files: Files, sel: Selection, m: ManifestDoc, n: Name) {
    && n.Archive? && n in files && n in m.archives
    && files[n] == Data(m.archives[n])
    && BundleOk(w, files, sel, TargetBundle(n.target))
  }

  predicate VerifyProofs(w: World, files: Files, sel: Selection) {
    var manifest := Manifest(sel.tier.Trailing?);
    && sel in w.green
    && manifest in files && files[manifest].ManifestFile?
    && var m := files[manifest].manifest;
    && MatchManifest(w, sel, m)
    && BundleOk(w, files, sel, ManifestBundle(sel.tier.Trailing?))
    && (forall n :: n in m.metadata ==> n in files && files[n] == Data(m.metadata[n]))
    && (forall n :: n in m.archives ==> ArchiveOk(w, files, sel, m, n))
  }

  /** All files of the selection's tier, except the receipt, are there and genuine. */
  ghost predicate ProofsComplete(w: World, files: Files, sel: Selection) {
    forall n :: Owns(sel.tier, n) && !n.Receipt? ==> n in files && Genuine(w, sel, n, files[n])
  }

  lemma TargetHasArchive(tier: Tier, t: Target)
    requires t in TierTargets(tier)
    ensures Archive(Gateway, t) in Archives(tier)
  {
    TierFilesByKind(tier, Archive(Gateway, t));
  }

  lemma VerifiedFileIsGenuine(w: World, files: Files, sel: Selection, n: Name)
    requires VerifyProofs(w, files, sel) && Owns(sel.tier, n) && !n.Receipt?
    ensures n in files && Genuine(w, sel, n, files[n])
  {
    var m := files[Manifest(sel.tier.Trailing?)].manifest;
    TierFilesByKind(sel.tier, n);
    if n.TargetBundle? {
      TargetHasArchive(sel.tier, n.target);
      assert ArchiveOk(w, files, sel, m, Archive(Gateway, n.target));
    }
  }

  /** The proof check accepts exactly the complete, genuine file sets of an approved selection. */
  lemma VerifyProofsIff(w: World, files: Files, sel: Selection)
    ensures VerifyProofs(w, files, sel) <==> Approved(w, sel) && ProofsComplete(w, files, sel)
  {
    if VerifyProofs(w, files, sel) {
      forall n | Owns(sel.tier, n) && !n.Receipt? ensures n in files && Genuine(w, sel, n, files[n]) {
        VerifiedFileIsGenuine(w, files, sel, n);
      }
    }
    if Approved(w, sel) && ProofsComplete(w, files, sel) {
      var trailing := sel.tier.Trailing?;
      assert Owns(sel.tier, Manifest(trailing)) && Owns(sel.tier, ManifestBundle(trailing));
      assert files[Manifest(trailing)] == ManifestFile(sel.manifest);
      forall n | n in sel.manifest.metadata ensures n in files && files[n] == Data(sel.manifest.metadata[n]) {
        assert Owns(sel.tier, n);
      }
      forall n | n in sel.manifest.archives ensures ArchiveOk(w, files, sel, sel.manifest, n) {
        TierFilesByKind(sel.tier, n);
        assert Owns(sel.tier, TargetBundle(n.target));
      }
    }
  }

  // ----- verify_present_trailing -----

  /** Names that need the trailing manifest to be verified. */
  predicate NeedsManifest(n: Name) {
    Owns(Trailing, n) && (n.Archive? || n.Index? || n.Checksums?)
  }

  /** A file already present is the one the candidate retained. */
  predicate SameAsCandidate(w: World, retained: set<Selection>, files: Files, sel: Selection, n: Name) {
    n in files && sel in retained && sel in w.bundles && n in w.bundles[sel] && files[n] == Data(w.bundles[sel][n])
  }

  /** The manifest to check against: the published one, or the retained artifact's. */
  function TrailingManifest(w: World, retained: set<Selection>, files: Files, sel: Selection): Option<ManifestDoc> {
    if Manifest(true) in files then
      if files[Manifest(true)].ManifestFile? && BundleOk(w, files, sel, ManifestBundle(true))
      then Some(files[Manifest(true)].manifest) else None
    else if (exists n :: n in files && NeedsManifest(n)) || sel !in retained then None
    else if ManifestBundle(true) in files && !SameAsCandidate(w, retained, files, sel, ManifestBundle(true)) then None
    else if sel in w.bundles && ManifestBundle(true) in w.bundles[sel]
            && (sel, ManifestBundle(true), w.bundles[sel][ManifestBundle(true)]) in w.attested
    then Some(sel.manifest) else None
  }

  predicate TargetOk(w: World, retained: set<Selection>, files: Files, sel: Selection, m: ManifestDoc, t: Target) {
    var present := set n | n in TargetArchives(t) && n in files;
    && (TargetBundle(t) in files && present == {} ==> SameAsCandidate(w, retained, files, sel, TargetBundle(t)))
    && (forall n :: n in present ==> ArchiveOk(w, files, sel, m, n))
  }

  /** Every trailing file a release carries verifies; the result counts those still absent. */
  function VerifyPresentTrailing(w: World, retained: set<Selection>, files: Files): Option<nat> {
    var present := set n | n in TierFiles(Trailing) && n in files;
    if present == {} then Some(|TierFiles(Trailing)|)
    else if Receipt(true) !in files || !files[Receipt(true)].ReceiptFile? then None
    else
      var sel := files[Receipt(true)].selection;
      if !sel.tier.Trailing? || sel !in w.green then None
      else
        var manifest := TrailingManifest(w, retained, files, sel);
        if manifest.None? || !MatchManifest(w, sel, manifest.value) then None
        else
          var m := manifest.value;
          if && (forall n :: n in m.metadata && n in files ==> files[n] == Data(m.metadata[n]))
             && (forall t :: t in TierTargets(Trailing) ==> TargetOk(w, retained, files, sel, m, t))
          then Some(|TierFiles(Trailing) - present|) else None
  }

  /** The presence rule an interrupted addition keeps: a file is there only with
      everything of a lower rank. */
  ghost predicate RankClosed(files: Files) {
    forall a, b :: Owns(Trailing, a) && Owns(Trailing, b) && b in files && Rank(a) < Rank(b) ==> a in files
  }

  /** The trailing files present are `tsel`'s candidate's own, closed under rank. */
  ghost predicate TrailingPart(w: World, files: Files, tsel: Selection) {
    && tsel.tier.Trailing? && ValidCandidate(w, tsel)
    && (forall n :: n in files && Owns(Trailing, n) ==> files[n] == CandidateFile(w, tsel, n))
    && RankClosed(files)
  }

  /** The trailing check needs no artifact of the candidate: there is no trailing
      file, or the manifest is on the release and every target bundle has an
      archive with it. */
  predicate NoArtifactNeeded(files: Files) {
    || (forall n :: n in files ==> !Owns(Trailing, n))
    || (Manifest(true) in files
        && forall t :: t in TierTargets(Trailing) && TargetBundle(t) in files ==> HasArchive(files, t))
  }

  predicate HasArchive(files: Files, t: Target) {
    exists n :: n in TargetArchives(t) && n in files
  }

  lemma TrailingManifestFound(w: World, retained: set<Selection>, files: Files, tsel: Selection)
    requires TrailingPart(w, files, tsel)
    ensures TrailingManifest(w, retained, files, tsel)
            == if Manifest(true) in files || tsel in retained then Some(tsel.manifest) else None
  {
    var manifest, bundle := Manifest(true), ManifestBundle(true);
    TierFilesByKind(Trailing, bundle);
    if manifest in files {
      assert Owns(Trailing, manifest) && Rank(bundle) < Rank(manifest);
      assert files[bundle] == CandidateFile(w, tsel, bundle);
    } else {
      assert forall n :: NeedsManifest(n) ==> Rank(manifest) < Rank(n);
    }
  }

  lemma TrailingTargetOk(w: World, retained: set<Selection>, files: Files, tsel: Selection, t: Target)
    requires TrailingPart(w, files, tsel) && t in TierTargets(Trailing)
    ensures TargetOk(w, retained, files, tsel, tsel.manifest, t)
            <==> (TargetBundle(t) in files ==> HasArchive(files, t) || tsel in retained)
  {
    var bundle := TargetBundle(t);
    var present := set n | n in TargetArchives(t) && n in files;
    assert present == {} <==> !HasArchive(files, t) by {
      assert forall n :: n in present <==> n in TargetArchives(t) && n in files;
    }
    TierFilesByKind(Trailing, bundle);
    assert Owns(Trailing, bundle);
    forall n | n in present ensures ArchiveOk(w, files, tsel, tsel.manifest, n) {
      PresentArchiveOk(w, files, tsel, t, n);
    }
  }

  lemma PresentArchiveOk(w: World, files: Files, tsel: Selection, t: Target, n: Name)
    requires TrailingPart(w, files, tsel) && t in TierTargets(Trailing) && n in TargetArchives(t) && n in files
    ensures ArchiveOk(w, files, tsel, tsel.manifest, n)
  {
    var bundle := TargetBundle(t);
    TierFilesByKind(Trailing, bundle);
    TierFilesByKind(Trailing, n);
    assert Owns(Trailing, n) && Rank(bundle) < Rank(n);
    assert files[bundle] == CandidateFile(w, tsel, bundle);
  }

  lemma TrailingReceiptFound(w: World, files: Files, tsel: Selection, n: Name)
    requires TrailingPart(w, files, tsel) && Owns(Trailing, n) && n in files
    ensures Receipt(true) in files && files[Receipt(true)] == ReceiptFile(tsel, "")
  {
    assert n == Receipt(true) || Rank(Receipt(true)) < Rank(n);
    assert Owns(Trailing, Receipt(true));
  }

  lemma TrailingMetadataOk(w: World, files: Files, tsel: Selection, n: Name)
    requires TrailingPart(w, files, tsel) && n in tsel.manifest.metadata && n in files
    ensures files[n] == Data(tsel.manifest.metadata[n])
  {
    assert Owns(Trailing, n);
  }

  lemma PresentTrailing(files: Files, n: Name)
    ensures n in (set x | x in TierFiles(Trailing) && x in files) <==> Owns(Trailing, n) && n in files
  {
    TierFilesByKind(Trailing, n);
  }

  lemma NoTrailingVerifies(w: World, retained: set<Selection>, files: Files)
    requires (set n | n in TierFiles(Trailing) && n in files) == {}
    ensures VerifyPresentTrailing(w, retained, files) == Some(|TierFiles(Trailing)|) && NoArtifactNeeded(files)
  {
    forall n | n in files ensures !Owns(Trailing, n) { PresentTrailing(files, n); }
  }

  /** With the receipt found, the check comes down to manifest and targets. */
  lemma SomeTrailingVerifiesIff(w: World, retained: set<Selection>, files: Files, tsel: Selection, b: Name)
    requires TrailingPart(w, files, tsel) && Owns(Trailing, b) && b in files
    ensures VerifyPresentTrailing(w, retained, files).Some? <==>
            && (Manifest(true) in files || tsel in retained)
            && (forall t :: t in TierTargets(Trailing) && TargetBundle(t) in files ==>
                HasArchive(files, t) || tsel in retained)
  {
    PresentTrailing(files, b);
    TrailingReceiptFound(w, files, tsel, b);
    TrailingManifestFound(w, retained, files, tsel);
    forall t | t in TierTargets(Trailing)
      ensures TargetOk(w, retained, files, tsel, tsel.manifest, t)
              <==> (TargetBundle(t) in files ==> HasArchive(files, t) || tsel in retained)
    {
      TrailingTargetOk(w, retained, files, tsel, t);
    }
    forall n | n in tsel.manifest.metadata && n in files ensures files[n] == Data(tsel.manifest.metadata[n]) {
      TrailingMetadataOk(w, files, tsel, n);
    }
  }

  lemma PassedCountsMissing(w: World, retained: set<Selection>, files: Files)
    requires VerifyPresentTrailing(w, retained, files).Some?
    ensures VerifyPresentTrailing(w, retained, files)
            == Some(|TierFiles(Trailing) - (set n | n in TierFiles(Trailing) && n in files)|)
  {
    var present := set n | n in TierFiles(Trailing) && n in files;
    if present == {} { assert TierFiles(Trailing) - present == TierFiles(Trailing); }
  }

  /** Whatever an interrupted addition leaves, the check passes, with the number of
      files still missing, if and only if the candidate is retained or none of its
      artifacts is needed. */
  lemma PartialTrailingVerifiesIff(w: World, retained: set<Selection>, files: Files, tsel: Selection)
    requires TrailingPart(w, files, tsel)
    ensures VerifyPresentTrailing(w, retained, files)
            == if tsel in retained || NoArtifactNeeded(files)
               then Some(|TierFiles(Trailing) - (set n | n in TierFiles(Trailing) && n in files)|) else None
  {
    var present := set n | n in TierFiles(Trailing) && n in files;
    if present == {} {
      NoTrailingVerifies(w, retained, files);
    } else {
      var b :| b in present;
      PresentTrailing(files, b);
      SomeTrailingVerifiesIff(w, retained, files, tsel, b);
    }
    if VerifyPresentTrailing(w, retained, files).Some? { PassedCountsMissing(w, retained, files); }
  }

  /** A complete trailing tier verifies for good, and as a flat set. */
  lemma CompleteTrailingVerifies(w: World, retained: set<Selection>, files: Files, tsel: Selection)
    requires TrailingPart(w, files, tsel) && forall n :: Owns(Trailing, n) ==> n in files
    ensures VerifyPresentTrailing(w, retained, files) == Some(0) && FlatOk(w, files, Trailing)
  {
    forall t | t in TierTargets(Trailing) ensures HasArchive(files, t) {
      TargetHasArchive(Trailing, t);
      TierFilesByKind(Trailing, Archive(Gateway, t));
      assert Archive(Gateway, t) in TargetArchives(t);
    }
    PartialTrailingVerifiesIff(w, retained, files, tsel);
    forall n | n in TierFiles(Trailing) ensures n in files { TierFilesByKind(Trailing, n); }
    assert TierFiles(Trailing) - (set n | n in TierFiles(Trailing) && n in files) == {};
    forall n | n in FlatNames(tsel.tier) ensures n in files && files[n] == Bound(tsel, n) { FlatName(Trailing, n); }
    FlatIsSelected(w, files, tsel);
  }

  /** What acceptance says about the receipt and the manifest it was checked against. */
  lemma AcceptedReceipt(w: World, retained: set<Selection>, files: Files, n: Name)
    requires VerifyPresentTrailing(w, retained, files).Some? && Owns(Trailing, n) && n in files
    ensures Receipt(true) in files && files[Receipt(true)].ReceiptFile?
    ensures var sel := files[Receipt(true)].selection;
            var m := TrailingManifest(w, retained, files, sel);
            && sel.tier.Trailing? && sel in w.green && m.Some? && MatchManifest(w, sel, m.value)
            && (n in m.value.metadata ==> files[n] == Data(m.value.metadata[n]))
            && (n.Archive? ==> TargetOk(w, retained, files, sel, m.value, n.target))
  {
    TierFilesByKind(Trailing, n);
    assert n in set x | x in TierFiles(Trailing) && x in files;
  }

  /** Conversely, whatever the check accepts binds every archive and metadata file
      present to the manifest of the receipt on the release. */
  lemma AcceptedTrailingIsBound(w: World, retained: set<Selection>, files: Files, n: Name)
    requires VerifyPresentTrailing(w, retained, files).Some? && NeedsManifest(n) && n in files
    ensures Receipt(true) in files && files[Receipt(true)].ReceiptFile?
    ensures var sel := files[Receipt(true)].selection;
            && sel.tier.Trailing? && Approved(w, sel) && files[n] == Bound(sel, n)
            && Manifest(true) in files && files[Manifest(true)] == ManifestFile(sel.manifest)
  {
    AcceptedReceipt(w, retained, files, n);
    CheckedIsBound(w, retained, files, files[Receipt(true)].selection, n);
  }

  lemma CheckedIsBound(w: World, retained: set<Selection>, files: Files, sel: Selection, n: Name)
    requires NeedsManifest(n) && n in files && sel.tier.Trailing?
    requires var m := TrailingManifest(w, retained, files, sel);
             && m.Some? && MatchManifest(w, sel, m.value)
             && (n in m.value.metadata ==> files[n] == Data(m.value.metadata[n]))
             && (n.Archive? ==> TargetOk(w, retained, files, sel, m.value, n.target))
    ensures files[n] == Bound(sel, n) && Manifest(true) in files && files[Manifest(true)] == ManifestFile(sel.manifest)
  {
    if n.Archive? {
      assert n in TargetArchives(n.target) by { match n.binary { case Gateway => case RpcGateway => case Repair => } }
      assert ArchiveOk(w, files, sel, sel.manifest, n);
    }
  }
}
