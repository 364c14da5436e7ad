/** Real inputs for the refusals of the release protocol: a rerun with another
    attested bundle or a reformatted receipt, the empty draft, and a trailing tier
    partly added by a candidate that expired (scripts/release-candidate.py). */
module ReleaseWitness {
  import opened Wrappers
  import opened ReleaseNames
  import opened Candidates
  import opened Release
  import opened ReleaseTheorems

  const TAGGED := Source("5ea1", "1.0.0", "v1.0.0")

  function Manifested(tier: Tier): ManifestDoc {
    ManifestDoc(tier, TAGGED, 7, 1, map n | n in Archives(tier) :: "archive",
                map n | n in MetadataNames(tier) :: "metadata")
  }

  function Chosen(tier: Tier): Selection {
    Selection(tier, 7, 1, Manifested(tier))
  }

  function Recorded(tier: Tier): map<Name, Blob> {
    Manifested(tier).archives + Manifested(tier).metadata
  }

  /** A core and a trailing candidate. Attesting twice gives two bundles for the same
      bytes, and both verify. */
  function Twice(): World {
    World(TAGGED, {Chosen(Core), Chosen(Trailing)},
          map[Chosen(Trailing) := map n | n in Bundles(Trailing) :: "1"],
          set tier, n, b | tier in {Core, Trailing} && n in Bundles(tier) && b in {"1", "2"} :: (Chosen(tier), n, b),
          {Recorded(Core), Recorded(Trailing)})
  }

  /** The core files with the given manifest bundle and the receipt written so. */
  function StagedWith(bundle: Blob, layout: string): Files {
    map n | n in TierFiles(Core) ::
      if n == ManifestBundle(false) then Data(bundle)
      else if n == SELECTION then ReceiptFile(Chosen(Core), layout)
      else if IsBundle(n) then Data("1")
      else Bound(Chosen(Core), n)
  }

  lemma ChosenIsApproved(tier: Tier)
    requires tier == Core || tier == Trailing
    ensures Approved(Twice(), Chosen(tier)) && FlatSelection(Twice(), Chosen(tier))
  {}

  lemma BundleIsAttested(tier: Tier, n: Name, b: Blob)
    requires (tier == Core || tier == Trailing) && n in Bundles(tier) && (b == "1" || b == "2")
    ensures (Chosen(tier), n, b) in Twice().attested
  {}

  lemma StagedContent(bundle: Blob, layout: string, n: Name)
    requires n in TierFiles(Core)
    ensures var c := StagedWith(bundle, layout)[n];
            && (IsBundle(n) ==> c == Data(if n == ManifestBundle(false) then bundle else "1"))
            && (n.Receipt? ==> IsReceiptOf(c, Chosen(Core)))
            && (!IsBundle(n) && !n.Receipt? ==> c == Bound(Chosen(Core), n))
  {
    TierFilesByKind(Core, n);
  }

  lemma StagedIsGenuine(bundle: Blob, layout: string, n: Name)
    requires (bundle == "1" || bundle == "2") && Owns(Core, n)
    ensures n in StagedWith(bundle, layout) && Genuine(Twice(), Chosen(Core), n, StagedWith(bundle, layout)[n])
  {
    assert n in TierFiles(Core) && (IsBundle(n) ==> n in Bundles(Core)) by { TierFilesByKind(Core, n); }
    StagedContent(bundle, layout, n);
    if IsBundle(n) { BundleIsAttested(Core, n, if n == ManifestBundle(false) then bundle else "1"); }
  }

  lemma StagedIsValid(bundle: Blob, layout: string)
    requires bundle == "1" || bundle == "2"
    ensures ValidStaging(Twice(), Chosen(Core), StagedWith(bundle, layout))
  {
    var w, sel, staged := Twice(), Chosen(Core), StagedWith(bundle, layout);
    ChosenIsApproved(Core);
    forall n | Owns(Core, n)
      ensures n in staged && Genuine(w, sel, n, staged[n])
    {
      StagedIsGenuine(bundle, layout, n);
    }
    VerifyProofsIff(w, staged, sel);
    forall n | n in FlatNames(Core) ensures n in staged && staged[n] == Bound(sel, n) { FlatName(Core, n); }
    FlatIsSelected(w, staged, sel);
    assert Owns(Core, SELECTION);
  }

  lemma ReceiptFirst(staged: Files) returns (order: seq<Name>)
    requires SELECTION in staged
    ensures PublishOrder(order, staged, Absent) && order != []
  {
    var rest := SomeListing(staged.Keys - {SELECTION});
    order := [SELECTION] + rest;
  }

  // ----- Reruns with other bytes -----

  lemma AllUploadsLeaveStaging(staged: Files, order: seq<Name>)
    requires Lists(order, staged, Absent)
    ensures var r := Uploads(NEW_DRAFT, staged, order, |order|);
            r.draft && Inventory(r) == staged
  {
    assert Inventory(NEW_DRAFT) == map[] && map[] + staged == staged;
    FullUpload(NEW_DRAFT, Absent, staged, order);
  }

  lemma OwnStagingCanFinish(w: World, r: Remote, sel: Selection, staged: Files)
    requires r.Present? && Inventory(r) == staged && ValidStaging(w, sel, staged) && sel.tier.Core?
    ensures CanFinish(w, {}, r, sel, staged)
  {
    TierFilesByKind(Core, Receipt(true));
    assert forall n :: n in r.assets ==> n in Inventory(r) && Inventory(r)[n] == r.assets[n].content;
    assert SELECTION in Inventory(r) && Receipt(true) !in Inventory(r);
  }

  /** A first promotion cut before it goes public leaves exactly its staging on a
      draft, and the same staging can finish it. */
  lemma CutBeforePublic(w: World, sel: Selection, staged: Files, order: seq<Name>)
    requires ValidStaging(w, sel, staged) && sel.tier.Core? && PublishOrder(order, staged, Absent)
    ensures var r := After(w, [Promote({}, sel, staged, order, |order| + 1)]);
            r.Present? && r.draft && Inventory(r) == staged && CanFinish(w, {}, r, sel, staged)
  {
    FirstPromotion(w, {}, sel, staged, order, |order| + 1);
    AllUploadsLeaveStaging(staged, order);
    OwnStagingCanFinish(w, Uploads(NEW_DRAFT, staged, order, |order|), sel, staged);
  }

  /** A core file that is there with other bytes than staged refuses the promotion. */
  lemma OtherBytesBlock(w: World, r: Remote, sel: Selection, staged: Files, n: Name)
    requires r.Present? && n in r.assets && n in staged && Inventory(r)[n] != staged[n] && Owns(Core, n)
    ensures forall retained :: !MayPublish(w, retained, r, sel, staged)
  {
    assert n !in Carried(Inventory(r), staged, sel);
  }

  /** A promotion stops after its last upload. A rerun staged with the other bundle,
      or with the receipt written differently, is just as valid and refused; one
      with the bytes on the release finishes. */
  lemma OtherBytesAreRefused() returns (order: seq<Name>)
    ensures ValidStaging(Twice(), Chosen(Core), StagedWith("1", "")) && PublishOrder(order, StagedWith("1", ""), Absent)
    ensures ValidStaging(Twice(), Chosen(Core), StagedWith("2", ""))
            && ValidStaging(Twice(), Chosen(Core), StagedWith("1", " "))
    ensures var r := After(Twice(), [Promote({}, Chosen(Core), StagedWith("1", ""), order, |order| + 1)]);
            && r.Present? && r.draft && CanFinish(Twice(), {}, r, Chosen(Core), StagedWith("1", ""))
            && (forall retained :: !MayPublish(Twice(), retained, r, Chosen(Core), StagedWith("2", "")))
            && (forall retained :: !MayPublish(Twice(), retained, r, Chosen(Core), StagedWith("1", " ")))
  {
    StagedIsValid("1", "");
    StagedIsValid("2", "");
    StagedIsValid("1", " ");
    var staged := StagedWith("1", "");
    order := ReceiptFirst(staged);
    CutBeforePublic(Twice(), Chosen(Core), staged, order);
    var r := After(Twice(), [Promote({}, Chosen(Core), staged, order, |order| + 1)]);
    StagedDiffers();
    assert ManifestBundle(false) in Inventory(r) && SELECTION in Inventory(r);
    OtherBytesBlock(Twice(), r, Chosen(Core), StagedWith("2", ""), ManifestBundle(false));
    OtherBytesBlock(Twice(), r, Chosen(Core), StagedWith("1", " "), SELECTION);
  }

  lemma StagedDiffers()
    ensures ManifestBundle(false) in TierFiles(Core) && SELECTION in TierFiles(Core)
    ensures StagedWith("1", "")[ManifestBundle(false)] != StagedWith("2", "")[ManifestBundle(false)]
    ensures StagedWith("1", "")[SELECTION] != StagedWith("1", " ")[SELECTION]
  {
    TierFilesByKind(Core, ManifestBundle(false));
    TierFilesByKind(Core, SELECTION);
  }

  /** A first promotion that stops right after it created the draft leaves a release
      no later command changes. */
  lemma CreationAloneIsADeadEnd(run: Run) returns (order: seq<Name>)
    ensures PublishOrder(order, StagedWith("1", ""), Absent)
    ensures var r := After(Twice(), [Promote({}, Chosen(Core), StagedWith("1", ""), order, 1)]);
            r == NEW_DRAFT && Execute(Twice(), r, run) == r
  {
    StagedIsValid("1", "");
    order := ReceiptFirst(StagedWith("1", ""));
    EmptyDraftIsReached(Twice(), {}, Chosen(Core), StagedWith("1", ""), order);
    EmptyDraftIsStuck(Twice(), NEW_DRAFT, run);
  }

  // ----- An expired part of the trailing tier -----

  lemma TrailingIsValid()
    ensures ValidCandidate(Twice(), Chosen(Trailing))
  {
    ChosenIsApproved(Trailing);
    forall n | n in Bundles(Trailing) ensures (Chosen(Trailing), n, "1") in Twice().attested {
      BundleIsAttested(Trailing, n, "1");
    }
  }

  lemma {:induction false} LeastRank(names: set<Name>) returns (n: Name)
    requires names != {}
    ensures n in names && forall m :: m in names ==> Rank(n) <= Rank(m)
    decreases |names|
  {
    n :| n in names;
    if names != {n} {
      assert names - {n} != {};
      var other := LeastRank(names - {n});
      if Rank(other) < Rank(n) { n := other; }
    }
  }

  lemma {:induction false} RankedListing(names: set<Name>) returns (order: seq<Name>)
    ensures Distinct(order) && forall n :: n in order <==> n in names
    ensures forall i, j :: 0 <= i < j < |order| ==> Rank(order[i]) <= Rank(order[j])
    decreases |names|
  {
    if names == {} {
      order := [];
    } else {
      var n := LeastRank(names);
      var rest := RankedListing(names - {n});
      order := [n] + rest;
    }
  }

  /** The trailing files in upload order: the receipt comes first. */
  lemma TrailingOrder(full: Files) returns (order: seq<Name>)
    requires forall n :: n in full <==> Owns(Trailing, n)
    ensures Distinct(order) && forall n :: n in order <==> n in full
    ensures forall i, j :: 0 <= i < j < |order| ==> Rank(order[i]) <= Rank(order[j])
    ensures order != [] && order[0] == Receipt(true)
  {
    order := RankedListing(full.Keys);
    assert Owns(Trailing, Receipt(true)) && Receipt(true) in order;
    var i :| 0 <= i < |order| && order[i] == Receipt(true);
    assert order[0] in order && Rank(order[0]) <= 0;
  }

  /** A public release that holds just the core staging lets the trailing tier be added. */
  lemma TrailingIsAdded(w: World, r: Remote, core: Selection, staged: Files, tsel: Selection) returns (full: Files)
    requires r.Present? && !r.draft && Inventory(r) == staged && ValidStaging(w, core, staged) && core.tier.Core?
    requires tsel.tier.Trailing? && ValidCandidate(w, tsel)
    ensures Additions(w, {tsel}, r, tsel) == Some(full) && (forall n :: n in full <==> Owns(Trailing, n))
    ensures forall n :: n in full ==> n !in Inventory(r) && full[n] == CandidateFile(w, tsel, n)
  {
    full := Stage(w, {tsel}, tsel).value;
    StagedFiles(w, {tsel}, tsel, full);
    forall n | n in staged ensures n in TierFiles(Core) && n !in full {
      TierFilesByKind(Core, n);
      TiersAreDisjoint(n);
    }
  }

  /** After one upload of a trailing recovery, the release carries the trailing receipt
      and nothing else of the tier. */
  ghost predicate OnlyReceiptAdded(r: Remote, tsel: Selection) {
    && r.Present? && !r.draft && Receipt(true) in r.assets
    && r.assets[Receipt(true)].content == ReceiptFile(tsel, "") && Manifest(true) !in r.assets
  }

  lemma FirstUpload(r: Remote, full: Files, order: seq<Name>, tsel: Selection)
    requires r.Present? && !r.draft && Lists(order, full, r) && order != [] && order[0] == Receipt(true)
    requires full[Receipt(true)] == ReceiptFile(tsel, "") && Manifest(true) !in r.assets
    ensures OnlyReceiptAdded(Uploads(r, full, order, 1), tsel)
  {
    UploadsSpec(r, full, order, 1);
    assert order[..1] == [Receipt(true)];
  }

  lemma OneUpload(w: World, r: Remote, core: Selection, staged: Files, tsel: Selection) returns (order: seq<Name>)
    requires r.Present? && !r.draft && Inventory(r) == staged && ValidStaging(w, core, staged) && core.tier.Core?
    requires tsel.tier.Trailing? && ValidCandidate(w, tsel)
    ensures OnlyReceiptAdded(RecoverRun(w, {tsel}, r, tsel, order, 1), tsel)
  {
    var full := TrailingIsAdded(w, r, core, staged, tsel);
    order := TrailingOrder(full);
    assert RecoverOrder(order, full, r, Trailing);
    assert Receipt(true) in full && Manifest(true) in full;
    FirstUpload(r, full, order, tsel);
    assert RecoverRun(w, {tsel}, r, tsel, order, 1) == Uploads(r, full, order, 1);
  }

  lemma ExpiryDecides(w: World, r: Remote, tsel: Selection)
    requires OnlyReceiptAdded(r, tsel)
    ensures TrailingCheckable({tsel}, r) && !TrailingCheckable({}, r)
  {
    assert Owns(Trailing, Receipt(true)) && Receipt(true) in Inventory(r) && Manifest(true) !in Inventory(r);
  }

  /** The core candidate is promoted to the end, and the recovery of the trailing one
      stops after its first upload. While the trailing candidate is retained the
      release verifies. Once it has expired verification fails, and no run changes
      the release any more. */
  lemma ExpiredPartialTier() returns (runs: seq<Run>)
    ensures After(Twice(), runs).Present? && !After(Twice(), runs).draft
    ensures VerifyPublished(Twice(), {Chosen(Trailing)}, After(Twice(), runs))
    ensures !VerifyPublished(Twice(), {}, After(Twice(), runs))
    ensures forall run: Run :: run.retained == {} ==>
            Execute(Twice(), After(Twice(), runs), run) == After(Twice(), runs)
  {
    StagedIsValid("1", "");
    TrailingIsValid();
    runs := CutRecovery(Twice(), Chosen(Core), StagedWith("1", ""), Chosen(Trailing));
    var r := After(Twice(), runs);
    ExpiryDecides(Twice(), r, Chosen(Trailing));
    PublicReleaseVerifiesIff(Twice(), {Chosen(Trailing)}, runs);
    PublicReleaseVerifiesIff(Twice(), {}, runs);
    forall run: Run | run.retained == {}
      ensures Execute(Twice(), r, run) == r
    {
      ExpiredPartIsStuck(Twice(), runs, run);
    }
  }

  lemma AllWritesLeaveStaging(staged: Files, order: seq<Name>)
    requires PublishOrder(order, staged, Absent)
    ensures var r := PublishWrites(Absent, staged, order, |order| + 2);
            r.Present? && !r.draft && Inventory(r) == staged
  {
    WritesPublish(Absent, staged, order, |order| + 2);
    assert map[] + staged == staged;
  }

  lemma PromotedToTheEnd(w: World, core: Selection, staged: Files, order: seq<Name>)
    requires ValidStaging(w, core, staged) && PublishOrder(order, staged, Absent)
    ensures var r := After(w, [Promote({}, core, staged, order, |order| + 2)]);
            r.Present? && !r.draft && Inventory(r) == staged
  {
    var r := PublishWrites(Absent, staged, order, |order| + 2);
    assert r.Present? && !r.draft && Inventory(r) == staged by { AllWritesLeaveStaging(staged, order); }
    assert After(w, [Promote({}, core, staged, order, |order| + 2)]) == r by {
      FirstPromotion(w, {}, core, staged, order, |order| + 2);
    }
  }

  lemma SecondRun(w: World, first: Run, second: Run)
    ensures After(w, [first, second]) == Execute(w, After(w, [first]), second)
  {
    assert [first, second][..1] == [first];
  }

  lemma CutRecovery(w: World, core: Selection, staged: Files, tsel: Selection) returns (runs: seq<Run>)
    requires ValidStaging(w, core, staged) && core.tier.Core? && tsel.tier.Trailing? && ValidCandidate(w, tsel)
    ensures OnlyReceiptAdded(After(w, runs), tsel)
  {
    var order := ReceiptFirst(staged);
    var promotion := Promote({}, core, staged, order, |order| + 2);
    PromotedToTheEnd(w, core, staged, order);
    var added := OneUpload(w, After(w, [promotion]), core, staged, tsel);
    runs := [promotion, Recover({tsel}, tsel, added, 1)];
    SecondRun(w, promotion, Recover({tsel}, tsel, added, 1));
  }
}
