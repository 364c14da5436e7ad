/** Consequences for every reachable release: published releases verify, partial
    trailing tiers are grounded, and reruns converge exactly when they can. */
module ReleaseTheorems {
  import opened Wrappers
  import opened ReleaseNames
  import opened Candidates
  import opened Release

  /** The selection on the core receipt. */
  predicate HasReceipt(r: Remote) {
    r.Present? && SELECTION in r.assets && r.assets[SELECTION].content.ReceiptFile?
  }

  function ReceiptOf(r: Remote): Selection
    requires HasReceipt(r)
  {
    r.assets[SELECTION].content.selection
  }

  // ----- verify-published -----

  /** The read-only check of a public release. */
  predicate VerifyPublished(w: World, retained: set<Selection>, r: Remote) {
    && HasReceipt(r) && !r.draft
    && var sel := ReceiptOf(r);
    && !sel.tier.Trailing?
    && (forall n :: n in r.assets ==> n in TierFiles(sel.tier) || (sel.tier.Core? && n in TierFiles(Trailing)))
    && FlatOk(w, Inventory(r), sel.tier)
    && VerifyProofs(w, Inventory(r), sel)
    && (sel.tier.Core? ==> VerifyPublishedTrailing(w, retained, Inventory(r)))
  }

  /** Each trailing file present verifies, and a complete tier verifies as a flat set. */
  predicate VerifyPublishedTrailing(w: World, retained: set<Selection>, files: Files) {
    var pending := VerifyPresentTrailing(w, retained, files);
    pending.Some? && (pending.value == 0 ==> FlatOk(w, files, Trailing))
  }

  /** The candidate behind the trailing receipt, if there is one, is still
      downloadable, or none of its artifacts is needed. */
  predicate TrailingCheckable(retained: set<Selection>, r: Remote) {
    (r.Present? && Receipt(true) in r.assets && r.assets[Receipt(true)].content.ReceiptFile?) ==>
      r.assets[Receipt(true)].content.selection in retained || NoArtifactNeeded(Inventory(r))
  }

  /** On a reachable core release the trailing check passes exactly when it can
      find what it needs. */
  lemma TrailingVerifiesIff(w: World, retained: set<Selection>, r: Remote)
    requires Safe(w, r) && HasReceipt(r) && ReceiptOf(r).tier.Core?
    ensures VerifyPresentTrailing(w, retained, Inventory(r)).Some? <==> TrailingCheckable(retained, r)
  {
    if n :| n in r.assets && Owns(Trailing, n) {
      var tsel := r.assets[Receipt(true)].content.selection;
      assert n in Inventory(r);
      TrailingReceiptFound(w, Inventory(r), tsel, n);
      PartialTrailingVerifiesIff(w, retained, Inventory(r), tsel);
    } else {
      forall n | n in TierFiles(Trailing) ensures n !in Inventory(r) {
        TierFilesByKind(Trailing, n);
      }
      assert (set n | n in TierFiles(Trailing) && n in Inventory(r)) == {};
      assert NoArtifactNeeded(Inventory(r));
    }
  }

  /** When no trailing file is missing, the trailing tier is a flat set too. */
  lemma CompleteTrailingIsFlat(w: World, retained: set<Selection>, r: Remote)
    requires Safe(w, r) && HasReceipt(r) && ReceiptOf(r).tier.Core?
    requires VerifyPresentTrailing(w, retained, Inventory(r)) == Some(0)
    ensures FlatOk(w, Inventory(r), Trailing)
  {
    var files, receipt := Inventory(r), Receipt(true);
    var present := set n | n in TierFiles(Trailing) && n in files;
    TierFilesByKind(Trailing, receipt);
    assert |TierFiles(Trailing) - present| == 0;
    forall n | Owns(Trailing, n) ensures n in files {
      TierFilesByKind(Trailing, n);
      assert n !in TierFiles(Trailing) - present;
    }
    assert receipt in r.assets;
    CompleteTrailingVerifies(w, retained, files, r.assets[receipt].content.selection);
  }

  lemma PublicProofsVerify(w: World, r: Remote)
    requires Safe(w, r) && r.Present? && !r.draft
    ensures HasReceipt(r) && VerifyProofs(w, Inventory(r), ReceiptOf(r)) && FlatOk(w, Inventory(r), ReceiptOf(r).tier)
  {
    var sel := ReceiptOf(r);
    VerifyProofsIff(w, Inventory(r), sel);
    forall n | n in FlatNames(sel.tier)
      ensures n in Inventory(r) && Inventory(r)[n] == Bound(sel, n)
    {
      FlatName(sel.tier, n);
    }
    FlatIsSelected(w, Inventory(r), sel);
  }

  lemma PublicNames(w: World, r: Remote, n: Name)
    requires Safe(w, r) && r.Present? && !r.draft && n in r.assets
    ensures HasReceipt(r) && !ReceiptOf(r).tier.Trailing?
    ensures n in TierFiles(ReceiptOf(r).tier) || (ReceiptOf(r).tier.Core? && n in TierFiles(Trailing))
  {
    TierFilesByKind(ReceiptOf(r).tier, n);
    TierFilesByKind(Trailing, n);
  }

  lemma PublishedTrailingVerifiesIff(w: World, retained: set<Selection>, r: Remote)
    requires Safe(w, r) && HasReceipt(r) && ReceiptOf(r).tier.Core?
    ensures VerifyPublishedTrailing(w, retained, Inventory(r)) <==> TrailingCheckable(retained, r)
  {
    TrailingVerifiesIff(w, retained, r);
    if VerifyPresentTrailing(w, retained, Inventory(r)) == Some(0) { CompleteTrailingIsFlat(w, retained, r); }
  }

  lemma PublishedCoreVerifies(w: World, r: Remote)
    requires Safe(w, r) && r.Present? && !r.draft
    ensures HasReceipt(r) && !ReceiptOf(r).tier.Trailing?
    ensures forall n :: n in r.assets ==>
              n in TierFiles(ReceiptOf(r).tier) || (ReceiptOf(r).tier.Core? && n in TierFiles(Trailing))
    ensures FlatOk(w, Inventory(r), ReceiptOf(r).tier) && VerifyProofs(w, Inventory(r), ReceiptOf(r))
  {
    PublicProofsVerify(w, r);
    forall n | n in r.assets
      ensures n in TierFiles(ReceiptOf(r).tier) || (ReceiptOf(r).tier.Core? && n in TierFiles(Trailing))
    {
      PublicNames(w, r, n);
    }
  }

  lemma SafeReleaseVerifiesIff(w: World, retained: set<Selection>, r: Remote)
    requires Safe(w, r) && r.Present? && !r.draft
    ensures VerifyPublished(w, retained, r) <==> TrailingCheckable(retained, r)
  {
    PublishedCoreVerifies(w, r);
    if ReceiptOf(r).tier.Core? {
      PublishedTrailingVerifiesIff(w, retained, r);
    } else {
      NoTrailingReceipt(w, r);
    }
  }

  /** A public release any history leads to passes verification, with the trailing
      tier absent, partly added or complete, if and only if what the trailing
      check has to download is still there. */
  lemma PublicReleaseVerifiesIff(w: World, retained: set<Selection>, runs: seq<Run>)
    requires After(w, runs).Present? && !After(w, runs).draft
    ensures VerifyPublished(w, retained, After(w, runs)) <==> TrailingCheckable(retained, After(w, runs))
  {
    EveryHistoryIsSafe(w, runs);
    SafeReleaseVerifiesIff(w, retained, After(w, runs));
  }

  lemma NoTrailingReceipt(w: World, r: Remote)
    requires Safe(w, r) && HasReceipt(r) && !ReceiptOf(r).tier.Core?
    ensures Receipt(true) !in r.assets
  {
    assert BoundTo(w, r, ReceiptOf(r));
    assert !Owns(ReceiptOf(r).tier, Receipt(true));
  }

  /** Whatever has expired: a public release verifies while it carries no trailing
      file, and again for good once it carries all of them. */
  lemma SettledReleaseVerifies(w: World, retained: set<Selection>, runs: seq<Run>)
    requires After(w, runs).Present? && !After(w, runs).draft
    requires var r := After(w, runs);
             (forall n :: Owns(Trailing, n) ==> n !in r.assets) || (forall n :: Owns(Trailing, n) ==> n in r.assets)
    ensures VerifyPublished(w, retained, After(w, runs))
  {
    var r := After(w, runs);
    PublicReleaseVerifiesIff(w, retained, runs);
    assert Owns(Trailing, Receipt(true));
    if Receipt(true) in r.assets {
      assert Owns(Trailing, Manifest(true));
      forall t | t in TierTargets(Trailing) ensures HasArchive(Inventory(r), t) {
        TargetHasArchive(Trailing, t);
        TierFilesByKind(Trailing, Archive(Gateway, t));
        assert Archive(Gateway, t) in TargetArchives(t);
      }
    }
  }

  // ----- The trailing tier -----

  /** Everything that verifies a trailing file is there with it, and an index or
      checksums file only with all archives it lists. */
  ghost predicate Grounded(files: Files, n: Name) {
    && Receipt(true) in files
    && (n.Archive? ==> TargetBundle(n.target) in files && Manifest(true) in files)
    && (n.Manifest? ==> ManifestBundle(true) in files)
    && (n.Index? || n.Checksums? ==> forall m :: m in Archives(Trailing) ==> m in files)
  }

  lemma RankClosedGrounds(files: Files, n: Name)
    requires RankClosed(files) && Owns(Trailing, n) && n in files
    ensures Grounded(files, n)
  {
    assert n == Receipt(true) || Rank(Receipt(true)) < Rank(n);
    assert n.Archive? ==> Owns(Trailing, TargetBundle(n.target)) && Rank(TargetBundle(n.target)) < Rank(n);
    assert Owns(Trailing, Manifest(true)) && Owns(Trailing, ManifestBundle(true));
    if n.Index? || n.Checksums? {
      forall m | m in Archives(Trailing) ensures m in files {
        TierFilesByKind(Trailing, m);
        assert Rank(m) < Rank(n);
      }
    }
  }

  /** A trailing file sits only on a public release with the complete core set,
      both receipts name this source, and the file is grounded. */
  ghost predicate OnPublicCore(w: World, r: Remote, n: Name)
    requires HasReceipt(r)
  {
    && !r.draft && (forall m :: Owns(Core, m) ==> m in r.assets)
    && Grounded(Inventory(r), n)
    && Receipt(true) in r.assets && r.assets[Receipt(true)].content.ReceiptFile?
    && r.assets[Receipt(true)].content.selection.tier.Trailing?
    && r.assets[Receipt(true)].content.selection.manifest.source == ReceiptOf(r).manifest.source == w.source
  }

  lemma SafeTrailingFile(w: World, r: Remote, n: Name)
    requires Safe(w, r) && HasReceipt(r) && ReceiptOf(r).tier.Core? && n in r.assets && Owns(Trailing, n)
    ensures OnPublicCore(w, r, n)
  {
    TiersAreDisjoint(n);
    assert BoundTo(w, r, ReceiptOf(r));
    RankClosedGrounds(Inventory(r), n);
  }

  lemma TrailingFilesAreGrounded(w: World, runs: seq<Run>, n: Name)
    requires var r := After(w, runs);
             HasReceipt(r) && ReceiptOf(r).tier.Core? && n in r.assets && Owns(Trailing, n)
    ensures OnPublicCore(w, After(w, runs), n)
  {
    EveryHistoryIsSafe(w, runs);
    SafeTrailingFile(w, After(w, runs), n);
  }

  // ----- Reruns -----

  /** What decides whether a promotion rerun goes through: there is no release
      yet, or it holds this selection's receipt, written as staged, its bundles are
      the staged ones, and the trailing check can find what it needs. */
  ghost predicate CanFinish(w: World, retained: set<Selection>, r: Remote, sel: Selection, staged: Files) {
    r.Present? ==>
      && SELECTION in r.assets && IsReceiptOf(r.assets[SELECTION].content, sel)
      && (forall n :: n in r.assets && Owns(sel.tier, n) && (IsBundle(n) || n == SELECTION) && n in staged ==>
            r.assets[n].content == staged[n])
      && TrailingCheckable(retained, r)
  }

  lemma CarriedNames(inventory: Files, staged: Files, sel: Selection, n: Name)
    requires staged.Keys == TierFiles(sel.tier)
    ensures n in Carried(inventory, staged, sel) <==> sel.tier.Core? && Owns(Trailing, n) && n in inventory
  {
    TierFilesByKind(Trailing, n);
    TierFilesByKind(sel.tier, n);
    TiersAreDisjoint(n);
  }

  lemma ExistingFilesMatch(w: World, retained: set<Selection>, r: Remote, sel: Selection, staged: Files, n: Name)
    requires Safe(w, r) && r.Present? && ValidStaging(w, sel, staged) && CanFinish(w, retained, r, sel, staged)
    requires n in r.assets && Owns(sel.tier, n)
    ensures n in staged && r.assets[n].content == staged[n]
  {
    StagedIsGenuine(w, sel, staged, n);
    assert BoundTo(w, r, sel);
  }

  /** On a reachable release a promotion is let through exactly when `CanFinish`
      holds; every other release is left as it is. */
  lemma PublishAllowedIff(w: World, retained: set<Selection>, r: Remote, sel: Selection, staged: Files)
    requires Safe(w, r) && ValidStaging(w, sel, staged)
    ensures MayPublish(w, retained, r, sel, staged) <==> CanFinish(w, retained, r, sel, staged)
  {
    if r.Present? {
      var inventory := Inventory(r);
      var carried := Carried(inventory, staged, sel);
      forall n: Name ensures n in carried <==> sel.tier.Core? && Owns(Trailing, n) && n in inventory {
        CarriedNames(inventory, staged, sel, n);
      }
      if MayPublish(w, retained, r, sel, staged) {
        AllowedCanFinish(w, retained, r, sel, staged);
      }
      if CanFinish(w, retained, r, sel, staged) {
        CanFinishIsAllowed(w, retained, r, sel, staged);
      }
    }
  }

  lemma AllowedCanFinish(w: World, retained: set<Selection>, r: Remote, sel: Selection, staged: Files)
    requires Safe(w, r) && r.Present? && MayPublish(w, retained, r, sel, staged)
    requires forall n :: n in Carried(Inventory(r), staged, sel) <==>
             sel.tier.Core? && Owns(Trailing, n) && n in Inventory(r)
    ensures CanFinish(w, retained, r, sel, staged)
  {
    var inventory := Inventory(r);
    assert IsReceiptOf(inventory[SELECTION], sel);
    forall n | n in r.assets && Owns(sel.tier, n) && (IsBundle(n) || n == SELECTION) && n in staged
      ensures r.assets[n].content == staged[n]
    {
      TiersAreDisjoint(n);
      assert n in inventory;
    }
    if sel.tier.Core? {
      TrailingVerifiesIff(w, retained, r);
      if Receipt(true) in r.assets { assert Receipt(true) in Carried(inventory, staged, sel); }
    } else {
      NoTrailingReceipt(w, r);
    }
  }

  lemma CanFinishIsAllowed(w: World, retained: set<Selection>, r: Remote, sel: Selection, staged: Files)
    requires Safe(w, r) && r.Present? && ValidStaging(w, sel, staged) && CanFinish(w, retained, r, sel, staged)
    requires forall n :: n in Carried(Inventory(r), staged, sel) <==>
             sel.tier.Core? && Owns(Trailing, n) && n in Inventory(r)
    ensures MayPublish(w, retained, r, sel, staged)
  {
    var inventory := Inventory(r);
    assert BoundTo(w, r, sel);
    forall n | n in inventory && n !in Carried(inventory, staged, sel)
      ensures n in staged && inventory[n] == staged[n]
    {
      ExistingFilesMatch(w, retained, r, sel, staged, n);
    }
    if sel.tier.Core? { TrailingVerifiesIff(w, retained, r); }
    forall n | n in Carried(inventory, staged, sel) ensures !r.draft { TiersAreDisjoint(n); }
  }

  /** What a finished promotion leaves: public, exactly the old files and the
      staged ones, nothing preexisting changed. */
  ghost predicate Published(r: Remote, before: Remote, staged: Files) {
    && Readback(r, Inventory(before) + staged, before)
    && !r.draft && forall n :: n in staged ==> n in r.assets && r.assets[n].content == staged[n]
  }

  /** Rerunning a promotion to its end, from any reachable state it may continue
      from, makes the release public with exactly the expected inventory. */
  lemma PublishConverges(w: World, retained: set<Selection>, r: Remote, sel: Selection, staged: Files,
                         order: seq<Name>, writes: nat)
    requires Safe(w, r) && ValidStaging(w, sel, staged) && CanFinish(w, retained, r, sel, staged)
    requires PublishOrder(order, staged, r) && writes > |order| + 1
    ensures Published(PublishRun(w, retained, r, sel, staged, order, writes), r, staged)
  {
    PublishAllowedIff(w, retained, r, sel, staged);
    forall n | n in Inventory(r) && n in staged ensures Inventory(r)[n] == staged[n] {
      TierFilesByKind(sel.tier, n);
      ExistingFilesMatch(w, retained, r, sel, staged, n);
    }
    WritesPublish(r, staged, order, writes);
  }

  lemma WritesPublish(r: Remote, staged: Files, order: seq<Name>, writes: nat)
    requires PublishOrder(order, staged, r) && writes > |order| + 1
    requires forall n :: n in Inventory(r) && n in staged ==> Inventory(r)[n] == staged[n]
    ensures Published(PublishWrites(r, staged, order, writes), r, staged)
  {
    var start := if r.Absent? then NEW_DRAFT else r;
    assert Inventory(start) == Inventory(r);
    FullUpload(start, r, staged, order);
    var uploaded := Uploads(start, staged, order, |order|);
    assert PublishWrites(r, staged, order, writes) == uploaded.(draft := false);
    assert Inventory(uploaded.(draft := false)) == Inventory(uploaded);
  }

  /** The empty draft left by a stop between creation and the receipt is refused
      by every later run. */
  lemma EmptyDraftIsStuck(w: World, r: Remote, run: Run)
    requires r.Present? && r.draft && r.assets == map[]
    ensures Execute(w, r, run) == r
  {
    assert Inventory(r) == map[];
  }

  /** The empty draft is reached: a first promotion cut right after creation. */
  lemma EmptyDraftIsReached(w: World, retained: set<Selection>, sel: Selection, staged: Files, order: seq<Name>)
    requires ValidStaging(w, sel, staged) && PublishOrder(order, staged, Absent)
    ensures After(w, [Promote(retained, sel, staged, order, 1)]) == NEW_DRAFT
  {
    FirstPromotion(w, retained, sel, staged, order, 1);
    assert Uploads(NEW_DRAFT, staged, order, 0) == NEW_DRAFT;
  }

  lemma FirstPromotion(w: World, retained: set<Selection>, sel: Selection, staged: Files, order: seq<Name>, writes: nat)
    requires ValidStaging(w, sel, staged) && PublishOrder(order, staged, Absent)
    ensures After(w, [Promote(retained, sel, staged, order, writes)]) == PublishWrites(Absent, staged, order, writes)
  {
    FirstRun(w, Promote(retained, sel, staged, order, writes));
    assert MayPublish(w, retained, Absent, sel, staged);
  }

  lemma FirstRun(w: World, run: Run)
    ensures After(w, [run]) == Execute(w, Absent, run)
  {
    assert [run][..0] == [] && After(w, []) == Absent;
  }

  // ----- Which releases a promotion can finish -----

  ghost function SomeBlob(w: World, sel: Selection, n: Name): (blob: Blob)
    requires Attestable(w, sel, n)
    ensures (sel, n, blob) in w.attested
  {
    var blob :| (sel, n, blob) in w.attested;
    blob
  }

  /** A staging that continues the release: its own files of the tier, and for each
      missing one the bytes its receipt binds, or an attested bundle. */
  ghost function Continuation(w: World, r: Remote): Files
    requires HasReceipt(r) && Stageable(w, ReceiptOf(r))
  {
    var sel := ReceiptOf(r);
    map n | n in TierFiles(sel.tier) ::
      if n in r.assets then r.assets[n].content
      else if n in Bundles(sel.tier) then Data(SomeBlob(w, sel, n))
      else Bound(sel, n)
  }

  lemma ContinuationIsGenuine(w: World, r: Remote, n: Name)
    requires Safe(w, r) && HasReceipt(r) && Stageable(w, ReceiptOf(r)) && Owns(ReceiptOf(r).tier, n)
    ensures n in Continuation(w, r) && Genuine(w, ReceiptOf(r), n, Continuation(w, r)[n])
  {
    TierFilesByKind(ReceiptOf(r).tier, n);
    assert BoundTo(w, r, ReceiptOf(r));
  }

  lemma ContinuationIsValid(w: World, retained: set<Selection>, r: Remote) returns (staged: Files)
    requires Safe(w, r) && HasReceipt(r)
    ensures ValidStaging(w, ReceiptOf(r), staged)
    ensures TrailingCheckable(retained, r) ==> CanFinish(w, retained, r, ReceiptOf(r), staged)
  {
    var sel := ReceiptOf(r);
    assert BoundTo(w, r, sel);
    staged := Continuation(w, r);
    forall n | Owns(sel.tier, n)
      ensures n in staged && Genuine(w, sel, n, staged[n])
    {
      ContinuationIsGenuine(w, r, n);
    }
    VerifyProofsIff(w, staged, sel);
    forall n | n in FlatNames(sel.tier) ensures n in staged && staged[n] == Bound(sel, n) { FlatName(sel.tier, n); }
    FlatIsSelected(w, staged, sel);
    assert Owns(sel.tier, SELECTION);
  }

  /** The promotion is let through and, run to its end, publishes the release. */
  ghost predicate Finishes(w: World, retained: set<Selection>, r: Remote, sel: Selection, staged: Files,
                           order: seq<Name>) {
    && MayPublish(w, retained, r, sel, staged) && PublishOrder(order, staged, r)
    && Published(PublishRun(w, retained, r, sel, staged, order, |order| + 2), r, staged)
  }

  ghost predicate CanBePublished(w: World, retained: set<Selection>, r: Remote, sel: Selection) {
    exists staged, order :: Finishes(w, retained, r, sel, staged, order)
  }

  /** From every reachable release that is not empty, whatever the cuts before, a
      promotion of its own receipt finishes if and only if what the trailing check
      has to download is still there. A draft always finishes. */
  lemma PromotionFinishesIff(w: World, retained: set<Selection>, runs: seq<Run>)
    requires After(w, runs).Present? && After(w, runs).assets != map[]
    ensures HasReceipt(After(w, runs))
    ensures CanBePublished(w, retained, After(w, runs), ReceiptOf(After(w, runs))) <==>
            TrailingCheckable(retained, After(w, runs))
    ensures After(w, runs).draft ==> CanBePublished(w, retained, After(w, runs), ReceiptOf(After(w, runs)))
  {
    var r := After(w, runs);
    EveryHistoryIsSafe(w, runs);
    if r.draft { DraftIsCheckable(w, retained, r); }
    if TrailingCheckable(retained, r) {
      ContinuationFinishes(w, retained, r);
    } else {
      forall staged, order ensures !Finishes(w, retained, r, ReceiptOf(r), staged, order) {
        if ValidStaging(w, ReceiptOf(r), staged) { PublishAllowedIff(w, retained, r, ReceiptOf(r), staged); }
      }
    }
  }

  lemma DraftIsCheckable(w: World, retained: set<Selection>, r: Remote)
    requires Safe(w, r) && HasReceipt(r) && r.draft
    ensures TrailingCheckable(retained, r)
  {
    var sel := ReceiptOf(r);
    assert BoundTo(w, r, sel);
    assert !Owns(sel.tier, Receipt(true));
  }

  lemma ContinuationFinishes(w: World, retained: set<Selection>, r: Remote)
    requires Safe(w, r) && HasReceipt(r) && TrailingCheckable(retained, r)
    ensures CanBePublished(w, retained, r, ReceiptOf(r))
  {
    var staged := ContinuationIsValid(w, retained, r);
    var order := SomeListing(staged.Keys - Inventory(r).Keys);
    ListingIsOrder(r, staged, order);
    StagingFinishes(w, retained, r, ReceiptOf(r), staged, order);
  }

  /** With the receipt in place any listing of the missing files will do. */
  lemma ListingIsOrder(r: Remote, staged: Files, order: seq<Name>)
    requires HasReceipt(r) && Distinct(order) && forall n :: n in order <==> n in staged.Keys - Inventory(r).Keys
    ensures PublishOrder(order, staged, r)
  {
    assert SELECTION in Inventory(r);
  }

  lemma StagingFinishes(w: World, retained: set<Selection>, r: Remote, sel: Selection, staged: Files, order: seq<Name>)
    requires Safe(w, r) && ValidStaging(w, sel, staged) && CanFinish(w, retained, r, sel, staged)
             && PublishOrder(order, staged, r)
    ensures Finishes(w, retained, r, sel, staged, order)
  {
    PublishAllowedIff(w, retained, r, sel, staged);
    PublishConverges(w, retained, r, sel, staged, order, |order| + 2);
  }

  // ----- A part of the trailing tier whose candidate has expired -----

  lemma ExpiredRecoveryIsRefused(w: World, retained: set<Selection>, r: Remote, sel: Selection)
    requires Safe(w, r) && HasReceipt(r) && !TrailingCheckable(retained, r)
    ensures Additions(w, retained, r, sel).None?
  {
    if Additions(w, retained, r, sel).Some? {
      if sel.tier.Trailing? {
        ExpiredTrailingRecovery(w, retained, r, sel);
      } else {
        StagedFiles(w, retained, sel, Additions(w, retained, r, sel).value);
        ExpiredCoreRecovery(w, retained, r, sel, Additions(w, retained, r, sel).value);
      }
    }
  }

  lemma ExpiredTrailingRecovery(w: World, retained: set<Selection>, r: Remote, sel: Selection)
    requires r.Present? && sel.tier.Trailing? && TrailingAdditions(w, retained, r, sel).Some?
    ensures TrailingCheckable(retained, r)
  {
    var receipt, full := Receipt(true), TrailingAdditions(w, retained, r, sel).value;
    StagedFiles(w, retained, sel, full);
    if receipt in r.assets { assert Inventory(r)[receipt] == full[receipt] == CandidateFile(w, sel, receipt); }
  }

  lemma ExpiredCoreRecovery(w: World, retained: set<Selection>, r: Remote, sel: Selection, full: Files)
    requires Safe(w, r) && HasReceipt(r) && !sel.tier.Trailing? && Receipt(true) in r.assets
    requires forall n :: n in full <==> Owns(sel.tier, n)
    requires CheckExisting(w, retained, Inventory(r), full, sel, r.draft)
    ensures TrailingCheckable(retained, r)
  {
    assert IsReceiptOf(Inventory(r)[SELECTION], sel);
    if sel.tier.Core? {
      TierFilesByKind(Trailing, Receipt(true));
      assert Receipt(true) in Carried(Inventory(r), full, sel);
      TrailingVerifiesIff(w, retained, r);
    } else {
      NoTrailingReceipt(w, r);
    }
  }

  /** Besides the empty draft: once the candidate behind a partly added trailing tier
      has expired while an artifact of it is needed, no promotion and no recovery of
      either tier changes the release. */
  lemma ExpiredPartIsStuck(w: World, runs: seq<Run>, run: Run)
    requires After(w, runs).Present? && After(w, runs).assets != map[]
    requires !TrailingCheckable(run.retained, After(w, runs))
    ensures Execute(w, After(w, runs), run) == After(w, runs)
  {
    var r := After(w, runs);
    EveryHistoryIsSafe(w, runs);
    match run
    case Promote(retained, sel, staged, order, writes) =>
      if ValidStaging(w, sel, staged) { PublishAllowedIff(w, retained, r, sel, staged); }
    case Recover(retained, sel, order, writes) =>
      ExpiredRecoveryIsRefused(w, retained, r, sel);
  }
}
