/** The remote release and the runs that write it: promotion and add-only
    recovery, each of which may stop after any of its remote writes
    (scripts/release-candidate.py). */
module Release {
  import opened Wrappers
  import opened ReleaseNames
  import opened Candidates

  datatype Asset = Asset(id: nat, content: Content)

  datatype Remote = Absent | Present(draft: bool, assets: map<Name, Asset>, nextId: nat)

  const SELECTION := Receipt(false)

  const NEW_DRAFT := Present(true, map[], 0)

  function Inventory(r: Remote): Files {
    if r.Absent? then map[] else map n | n in r.assets :: r.assets[n].content
  }

  // ----- What each command checks before it writes -----

  /** `validate_staging`. */
  predicate ValidStaging(w: World, sel: Selection, staged: Files) {
    && !sel.tier.Trailing?
    && staged.Keys == TierFiles(sel.tier)
    && SELECTION in staged && IsReceiptOf(staged[SELECTION], sel)
    && FlatOk(w, staged, sel.tier)
    && VerifyProofs(w, staged, sel)
  }

  /** Trailing files a core release already carries. */
  function Carried(inventory: Files, expected: Files, sel: Selection): set<Name> {
    if sel.tier.Core? then (set n | n in TierFiles(Trailing) && n in inventory) - expected.Keys else {}
  }

  predicate CheckExisting(w: World, retained: set<Selection>, inventory: Files, expected: Files, sel: Selection,
                          draft: bool) {
    var carried := Carried(inventory, expected, sel);
    && (inventory != map[] ==> SELECTION in inventory && IsReceiptOf(inventory[SELECTION], sel))
    && (carried != {} ==> !draft && VerifyPresentTrailing(w, retained, inventory).Some?)
    && (forall n :: n in inventory && n !in carried ==> n in expected && inventory[n] == expected[n])
  }

  predicate MayPublish(w: World, retained: set<Selection>, r: Remote, sel: Selection, staged: Files) {
    && ValidStaging(w, sel, staged)
    && (r.Present? ==> SELECTION in r.assets && CheckExisting(w, retained, Inventory(r), staged, sel, r.draft))
  }

  /** `trailing_additions`: the trailing tier, for the public core release it extends. */
  function TrailingAdditions(w: World, retained: set<Selection>, r: Remote, sel: Selection): Option<Files>
    requires r.Present?
  {
    var inventory := Inventory(r);
    if r.draft || SELECTION !in inventory || !inventory[SELECTION].ReceiptFile? then None
    else
      var core := inventory[SELECTION].selection;
      if !core.tier.Core? || !VerifyProofs(w, inventory, core) then None
      else
        var full := Stage(w, retained, sel);
        if && full.Some?
           && (forall n :: n in inventory && n in full.value ==> inventory[n] == full.value[n])
           && (forall n :: n in inventory && n !in full.value ==> n in TierFiles(Core))
        then full else None
  }

  /** The files `recover` adds, or none when it refuses. */
  function Additions(w: World, retained: set<Selection>, r: Remote, sel: Selection): Option<Files> {
    if r.Absent? then None
    else if sel.tier.Trailing? then TrailingAdditions(w, retained, r, sel)
    else
      var full := Stage(w, retained, sel);
      if && full.Some? && CheckExisting(w, retained, Inventory(r), full.value, sel, r.draft) && SELECTION in r.assets
      then full else None
  }

  // ----- Uploads -----

  ghost predicate Distinct(order: seq<Name>) {
    forall i, j :: 0 <= i < j < |order| ==> order[i] != order[j]
  }

  /** `order` lists exactly the files still to be uploaded, once each. */
  ghost predicate Lists(order: seq<Name>, files: Files, r: Remote) {
    && Distinct(order)
    && (forall n :: n in order <==> n in files && n !in Inventory(r))
  }

  ghost predicate PublishOrder(order: seq<Name>, files: Files, r: Remote) {
    Lists(order, files, r) && (SELECTION in order ==> order[0] == SELECTION)
  }

  ghost predicate RecoverOrder(order: seq<Name>, files: Files, r: Remote, tier: Tier) {
    && Lists(order, files, r)
    && (tier.Trailing? ==> forall i, j :: 0 <= i < j < |order| ==> Rank(order[i]) <= Rank(order[j]))
  }

  /** Add-only: an upload under an existing name fails. */
  function UploadOne(r: Remote, n: Name, c: Content): Remote
    requires r.Present?
  {
    if n in r.assets then r else Present(r.draft, r.assets[n := Asset(r.nextId, c)], r.nextId + 1)
  }

  /** The first `k` uploads of `order`. */
  function Uploads(r: Remote, files: Files, order: seq<Name>, k: nat): (r': Remote)
    requires r.Present? && k <= |order|
    ensures r'.Present? && r'.draft == r.draft
  {
    if k == 0 then r
    else
      var n := order[k - 1];
      UploadOne(Uploads(r, files, order, k - 1), n, if n in files then files[n] else Data(""))
  }

  ghost predicate IdsOk(r: Remote) {
    r.Present? ==>
      && (forall n :: n in r.assets ==> r.assets[n].id < r.nextId)
      && (forall m, n :: m in r.assets && n in r.assets && m != n ==> r.assets[m].id != r.assets[n].id)
  }

  /** Nothing that was there changes: same id, same bytes, never back to draft or absent. */
  ghost predicate AddOnly(r: Remote, r': Remote) {
    r.Present? ==>
      && r'.Present? && (!r.draft ==> !r'.draft)
      && forall n :: n in r.assets ==> n in r'.assets && r'.assets[n] == r.assets[n]
  }

  /** `done` has been added to `r`, with the bytes of `files` and fresh ids. */
  ghost predicate Uploaded(r: Remote, r': Remote, files: Files, done: seq<Name>)
    requires r.Present? && r'.Present?
  {
    && AddOnly(r, r') && (IdsOk(r) ==> IdsOk(r'))
    && (forall n :: n in r'.assets <==> n in r.assets || n in done)
    && (forall n :: n in done ==> n in files && r'.assets[n].content == files[n])
  }

  lemma UploadOneSpec(r: Remote, before: Remote, files: Files, done: seq<Name>, n: Name)
    requires r.Present? && before.Present? && Uploaded(r, before, files, done)
    requires n in files && n !in before.assets
    ensures Uploaded(r, UploadOne(before, n, files[n]), files, done + [n])
  {
    var after := UploadOne(before, n, files[n]);
    assert forall m :: m in done + [n] <==> m in done || m == n;
    assert forall m :: m in before.assets ==> after.assets[m] == before.assets[m];
  }

  lemma NextIsNew(r: Remote, files: Files, order: seq<Name>, k: nat)
    requires r.Present? && 0 < k <= |order| && Lists(order, files, r)
    ensures var n := order[k - 1];
            n in files && n !in r.assets && n !in order[..k - 1] && order[..k] == order[..k - 1] + [n]
  {
    assert order[k - 1] in order;
  }

  lemma {:induction false} UploadsSpec(r: Remote, files: Files, order: seq<Name>, k: nat)
    requires r.Present? && k <= |order| && Lists(order, files, r)
    ensures Uploaded(r, Uploads(r, files, order, k), files, order[..k])
  {
    if k > 0 {
      UploadsSpec(r, files, order, k - 1);
      NextIsNew(r, files, order, k);
      UploadOneSpec(r, Uploads(r, files, order, k - 1), files, order[..k - 1], order[k - 1]);
    }
  }

  function Min(a: nat, b: nat): nat {
    if a < b then a else b
  }

  /** `readback`: exactly the expected files, and nothing preexisting changed. */
  predicate Readback(r: Remote, expected: Files, original: Remote) {
    && r.Present? && Inventory(r) == expected
    && (original.Present? ==> forall n :: n in original.assets ==> n in r.assets && r.assets[n] == original.assets[n])
  }

  /** Uploading all that is missing passes readback when what is there agrees. */
  lemma FullUpload(start: Remote, r: Remote, staged: Files, order: seq<Name>)
    requires start.Present? && Inventory(start) == Inventory(r) && (r.Present? ==> start == r)
    requires Lists(order, staged, start)
    requires forall n :: n in Inventory(r) && n in staged ==> Inventory(r)[n] == staged[n]
    ensures var uploaded := Uploads(start, staged, order, |order|);
            && Readback(uploaded, Inventory(r) + staged, r)
            && forall n :: n in staged ==> n in uploaded.assets && uploaded.assets[n].content == staged[n]
  {
    UploadsSpec(start, staged, order, |order|);
    assert order[..|order|] == order;
    UploadedInventory(start, Uploads(start, staged, order, |order|), staged, order);
  }

  lemma UploadedInventory(start: Remote, uploaded: Remote, staged: Files, order: seq<Name>)
    requires start.Present? && uploaded.Present? && Uploaded(start, uploaded, staged, order)
    requires forall n :: n in order <==> n in staged && n !in start.assets
    requires forall n :: n in start.assets && n in staged ==> start.assets[n].content == staged[n]
    ensures Inventory(uploaded) == Inventory(start) + staged
  {
    var both := Inventory(start) + staged;
    forall n: Name ensures n in Inventory(uploaded) <==> n in both {}
    forall n | n in uploaded.assets ensures uploaded.assets[n].content == both[n] {
      if n in start.assets { assert uploaded.assets[n] == start.assets[n]; }
    }
  }

  // ----- Runs -----

  /** The writes of a promotion, cut after `writes` of them: create the draft,
      upload in order, and after a clean readback make it public. */
  ghost function PublishWrites(r: Remote, staged: Files, order: seq<Name>, writes: nat): Remote {
    if writes == 0 then r
    else
      var start := if r.Absent? then NEW_DRAFT else r;
      var left := if r.Absent? then writes - 1 else writes;
      var uploaded := Uploads(start, staged, order, Min(left, |order|));
      if left > |order| && Readback(uploaded, Inventory(r) + staged, r)
      then uploaded.(draft := false) else uploaded
  }

  /** A run of `publish` that makes at most `writes` remote writes. */
  ghost function PublishRun(w: World, retained: set<Selection>, r: Remote, sel: Selection, staged: Files,
                            order: seq<Name>, writes: nat): Remote
  {
    if MayPublish(w, retained, r, sel, staged) && PublishOrder(order, staged, r)
    then PublishWrites(r, staged, order, writes) else r
  }

  /** A run of `recover` that makes at most `writes` uploads. */
  ghost function RecoverRun(w: World, retained: set<Selection>, r: Remote, sel: Selection, order: seq<Name>,
                            writes: nat): Remote {
    var additions := Additions(w, retained, r, sel);
    if additions.None? || !RecoverOrder(order, additions.value, r, sel.tier) then r
    else Uploads(r, additions.value, order, Min(writes, |order|))
  }

  datatype Run =
    | Promote(retained: set<Selection>, selection: Selection, staged: Files, order: seq<Name>, writes: nat)
    | Recover(retained: set<Selection>, selection: Selection, order: seq<Name>, writes: nat)

  ghost function Execute(w: World, r: Remote, run: Run): Remote {
    match run
    case Promote(retained, sel, staged, order, writes) => PublishRun(w, retained, r, sel, staged, order, writes)
    case Recover(retained, sel, order, writes) => RecoverRun(w, retained, r, sel, order, writes)
  }

  ghost function After(w: World, runs: seq<Run>): Remote {
    if runs == [] then Absent else Execute(w, After(w, runs[..|runs| - 1]), runs[|runs| - 1])
  }

  // ----- What holds of every reachable release -----

  /** A selection that has been staged once: approved, its recorded bytes verify as
      a flat set, and each of its bundles has some attested form. */
  ghost predicate Stageable(w: World, sel: Selection) {
    && Approved(w, sel) && FlatSelection(w, sel)
    && forall n :: n in Bundles(sel.tier) ==> Attestable(w, sel, n)
  }

  ghost predicate Attestable(w: World, sel: Selection, n: Name) {
    exists blob :: (sel, n, blob) in w.attested
  }

  /** The release belongs to the one selection on its receipt. */
  ghost predicate BoundTo(w: World, r: Remote, sel: Selection)
    requires r.Present?
  {
    && !sel.tier.Trailing? && Stageable(w, sel)
    && SELECTION in r.assets && IsReceiptOf(r.assets[SELECTION].content, sel)
    && (forall n :: n in r.assets && Owns(sel.tier, n) ==> Genuine(w, sel, n, r.assets[n].content))
    && (forall n :: n in r.assets && !Owns(sel.tier, n) ==> sel.tier.Core? && Owns(Trailing, n) && !r.draft)
    && (!r.draft ==> forall n :: Owns(sel.tier, n) ==> n in r.assets)
  }

  /** Trailing files of a core release all come from one trailing receipt, in rank order. */
  ghost predicate TrailingSafe(w: World, r: Remote, sel: Selection)
    requires r.Present?
  {
    sel.tier.Core? && (exists n :: n in r.assets && Owns(Trailing, n)) ==>
      && Receipt(true) in r.assets && r.assets[Receipt(true)].content.ReceiptFile?
      && TrailingPart(w, Inventory(r), r.assets[Receipt(true)].content.selection)
  }

  ghost predicate Safe(w: World, r: Remote) {
    r.Present? ==>
      && IdsOk(r)
      && if r.assets == map[] then r.draft
         else
           && SELECTION in r.assets && r.assets[SELECTION].content.ReceiptFile?
           && var sel := r.assets[SELECTION].content.selection;
              BoundTo(w, r, sel) && TrailingSafe(w, r, sel)
  }

  lemma StagedIsGenuine(w: World, sel: Selection, staged: Files, n: Name)
    requires ValidStaging(w, sel, staged) && Owns(sel.tier, n)
    ensures n in staged && Genuine(w, sel, n, staged[n])
  {
    if !n.Receipt? { VerifiedFileIsGenuine(w, staged, sel, n); }
  }

  /** Genuine files of a whole tier that verify as a flat set make the selection stageable. */
  lemma GenuineIsStageable(w: World, sel: Selection, files: Files)
    requires Approved(w, sel) && FlatOk(w, files, sel.tier)
    requires forall n :: Owns(sel.tier, n) ==> n in files && Genuine(w, sel, n, files[n])
    ensures Stageable(w, sel)
  {
    forall n | n in FlatNames(sel.tier) ensures n in files && files[n] == Bound(sel, n) { FlatName(sel.tier, n); }
    FlatIsSelected(w, files, sel);
    forall n | n in Bundles(sel.tier) ensures Attestable(w, sel, n) {
      TierFilesByKind(sel.tier, n);
      assert (sel, n, files[n].blob) in w.attested;
    }
  }

  lemma CandidateIsStageable(w: World, sel: Selection)
    requires ValidCandidate(w, sel)
    ensures Stageable(w, sel)
  {
    forall n | n in Bundles(sel.tier) ensures Attestable(w, sel, n) {
      assert (sel, n, w.bundles[sel][n]) in w.attested;
    }
  }

  /** Uploading a tier's own genuine files, with the receipt in place, keeps the release bound. */
  lemma CoreUploadsKeepBound(w: World, r: Remote, sel: Selection, files: Files, order: seq<Name>, k: nat)
    requires r.Present? && k <= |order| && Lists(order, files, r)
    requires forall n :: n in files <==> Owns(sel.tier, n)
    requires forall n :: n in files ==> Genuine(w, sel, n, files[n])
    requires !sel.tier.Trailing? && Stageable(w, sel)
    requires BoundTo(w, r, sel) || (r.assets == map[] && r.draft && k > 0 && order[0] == SELECTION)
    ensures BoundTo(w, Uploads(r, files, order, k), sel)
  {
    UploadsSpec(r, files, order, k);
    var r' := Uploads(r, files, order, k);
    forall n | n in order[..k] ensures n in order {}
    forall n | n in r'.assets && Owns(sel.tier, n) ensures Genuine(w, sel, n, r'.assets[n].content) {
      if n in order[..k] { assert r'.assets[n].content == files[n]; }
    }
    if !BoundTo(w, r, sel) { assert order[..k][0] == SELECTION; }
  }

  lemma SameTrailing(w: World, r: Remote, r': Remote, sel: Selection)
    requires r.Present? && r'.Present? && AddOnly(r, r') && TrailingSafe(w, r, sel)
    requires forall n :: n in r'.assets && n !in r.assets ==> !Owns(Trailing, n)
    ensures TrailingSafe(w, r', sel)
  {}

  lemma SafeFrom(w: World, r: Remote, sel: Selection)
    requires r.Present? && IdsOk(r) && BoundTo(w, r, sel) && TrailingSafe(w, r, sel)
    ensures Safe(w, r)
  {}

  lemma CoreUploadsKeepTrailing(w: World, r: Remote, sel: Selection, files: Files, order: seq<Name>, k: nat)
    requires r.Present? && k <= |order| && Lists(order, files, r)
    requires forall n :: n in files <==> Owns(sel.tier, n)
    requires TrailingSafe(w, r, sel)
    ensures TrailingSafe(w, Uploads(r, files, order, k), sel)
  {
    if sel.tier.Core? {
      UploadsSpec(r, files, order, k);
      var r' := Uploads(r, files, order, k);
      forall n | n in r'.assets && n !in r.assets ensures !Owns(Trailing, n) {
        assert n in order;
        TiersAreDisjoint(n);
      }
      SameTrailing(w, r, r', sel);
    }
  }

  lemma CoreUploadsKeepSafe(w: World, r: Remote, sel: Selection, files: Files, order: seq<Name>, k: nat)
    requires r.Present? && k <= |order| && Lists(order, files, r)
    requires forall n :: n in files <==> Owns(sel.tier, n)
    requires forall n :: n in files ==> Genuine(w, sel, n, files[n])
    requires !sel.tier.Trailing? && Stageable(w, sel) && IdsOk(r)
    requires (BoundTo(w, r, sel) && TrailingSafe(w, r, sel))
             || (r.assets == map[] && r.draft && k > 0 && order[0] == SELECTION)
    ensures Safe(w, Uploads(r, files, order, k)) && BoundTo(w, Uploads(r, files, order, k), sel)
  {
    CoreUploadsKeepBound(w, r, sel, files, order, k);
    CoreUploadsKeepTrailing(w, r, sel, files, order, k);
    assert IdsOk(Uploads(r, files, order, k)) by { UploadsSpec(r, files, order, k); }
    SafeFrom(w, Uploads(r, files, order, k), sel);
  }

  lemma MakePublicKeepsSafe(w: World, r: Remote, sel: Selection)
    requires r.Present? && Safe(w, r) && BoundTo(w, r, sel)
    requires forall n :: Owns(sel.tier, n) ==> n in r.assets
    ensures Safe(w, r.(draft := false))
  {
    assert Inventory(r.(draft := false)) == Inventory(r);
  }

  lemma PublishKeepsSafe(w: World, retained: set<Selection>, r: Remote, sel: Selection, staged: Files,
                         order: seq<Name>, writes: nat)
    requires Safe(w, r)
    ensures Safe(w, PublishRun(w, retained, r, sel, staged, order, writes))
    ensures AddOnly(r, PublishRun(w, retained, r, sel, staged, order, writes))
  {
    if MayPublish(w, retained, r, sel, staged) && PublishOrder(order, staged, r) {
      PublishInputs(w, retained, r, sel, staged, order);
      AllowedPublishKeepsSafe(w, r, sel, staged, order, writes);
    }
  }

  lemma AllowedPublishKeepsSafe(w: World, r: Remote, sel: Selection, staged: Files, order: seq<Name>, writes: nat)
    requires Safe(w, r) && Lists(order, staged, r)
    requires forall n :: n in staged <==> Owns(sel.tier, n)
    requires forall n :: n in staged ==> Genuine(w, sel, n, staged[n])
    requires !sel.tier.Trailing? && Stageable(w, sel)
    requires r.Present? ==> BoundTo(w, r, sel) && TrailingSafe(w, r, sel)
    requires r.Absent? ==> order != [] && order[0] == SELECTION
    ensures Safe(w, PublishWrites(r, staged, order, writes)) && AddOnly(r, PublishWrites(r, staged, order, writes))
  {
    if writes > 0 {
      var start := if r.Absent? then NEW_DRAFT else r;
      assert Inventory(start) == Inventory(r);
      PublishWritesKeepSafe(w, start, sel, staged, order, if r.Absent? then writes - 1 else writes);
    }
  }

  /** Uploads, and making public once all are done. */
  lemma PublishWritesKeepSafe(w: World, start: Remote, sel: Selection, staged: Files, order: seq<Name>, left: nat)
    requires start.Present? && Lists(order, staged, start) && IdsOk(start)
    requires forall n :: n in staged <==> Owns(sel.tier, n)
    requires forall n :: n in staged ==> Genuine(w, sel, n, staged[n])
    requires !sel.tier.Trailing? && Stageable(w, sel)
    requires (BoundTo(w, start, sel) && TrailingSafe(w, start, sel))
             || (start.assets == map[] && start.draft && order != [] && order[0] == SELECTION)
    ensures var uploaded := Uploads(start, staged, order, Min(left, |order|));
            && Safe(w, uploaded) && AddOnly(start, uploaded)
            && (left > |order| ==> Safe(w, uploaded.(draft := false)) && AddOnly(start, uploaded.(draft := false)))
  {
    var k := Min(left, |order|);
    var uploaded := Uploads(start, staged, order, k);
    assert AddOnly(start, uploaded) by { UploadsSpec(start, staged, order, k); }
    if k > 0 || BoundTo(w, start, sel) {
      CoreUploadsKeepSafe(w, start, sel, staged, order, k);
      if left > |order| {
        AllUploaded(start, sel.tier, staged, order);
        MakePublicKeepsSafe(w, uploaded, sel);
      }
    }
  }

  lemma PublishInputs(w: World, retained: set<Selection>, r: Remote, sel: Selection, staged: Files, order: seq<Name>)
    requires Safe(w, r) && MayPublish(w, retained, r, sel, staged) && PublishOrder(order, staged, r)
    ensures forall n :: n in staged <==> Owns(sel.tier, n)
    ensures forall n :: n in staged ==> Genuine(w, sel, n, staged[n])
    ensures Stageable(w, sel)
    ensures r.Present? ==> BoundTo(w, r, sel) && TrailingSafe(w, r, sel)
    ensures r.Absent? ==> order != [] && order[0] == SELECTION
  {
    forall n: Name ensures n in staged <==> Owns(sel.tier, n) { TierFilesByKind(sel.tier, n); }
    forall n | n in staged ensures Genuine(w, sel, n, staged[n]) { StagedIsGenuine(w, sel, staged, n); }
    VerifyProofsIff(w, staged, sel);
    GenuineIsStageable(w, sel, staged);
    if r.Present? {
      assert SELECTION in Inventory(r);
    } else {
      assert SELECTION in order;
    }
  }

  lemma AllUploaded(start: Remote, tier: Tier, files: Files, order: seq<Name>)
    requires start.Present? && Lists(order, files, start)
    requires forall n :: Owns(tier, n) ==> n in files
    ensures forall n :: Owns(tier, n) ==> n in Uploads(start, files, order, |order|).assets
  {
    UploadsSpec(start, files, order, |order|);
    assert order[..|order|] == order;
  }

  // ----- Recovery -----

  lemma StagedFiles(w: World, retained: set<Selection>, sel: Selection, full: Files)
    requires Stage(w, retained, sel) == Some(full)
    ensures forall n :: n in full <==> Owns(sel.tier, n)
    ensures forall n :: n in full ==> full[n] == CandidateFile(w, sel, n) && Genuine(w, sel, n, full[n])
    ensures ValidCandidate(w, sel)
  {
    forall n: Name ensures n in full <==> Owns(sel.tier, n) { TierFilesByKind(sel.tier, n); }
    forall n | n in full ensures Genuine(w, sel, n, full[n]) { CandidateIsGenuine(w, sel, n); }
  }

  lemma CoreRecoverKeepsSafe(w: World, retained: set<Selection>, r: Remote, sel: Selection, order: seq<Name>, k: nat)
    requires Safe(w, r) && !sel.tier.Trailing?
    requires Additions(w, retained, r, sel).Some?
    requires var full := Additions(w, retained, r, sel).value; Lists(order, full, r) && k <= |order|
    ensures Safe(w, Uploads(r, Additions(w, retained, r, sel).value, order, k))
  {
    var full := Additions(w, retained, r, sel).value;
    StagedFiles(w, retained, sel, full);
    CandidateIsStageable(w, sel);
    assert IsReceiptOf(Inventory(r)[SELECTION], sel);
    CoreUploadsKeepSafe(w, r, sel, full, order, k);
  }

  /** What a permitted trailing addition starts from. */
  lemma TrailingInputs(w: World, retained: set<Selection>, r: Remote, tsel: Selection)
    requires Safe(w, r) && r.Present? && tsel.tier.Trailing? && TrailingAdditions(w, retained, r, tsel).Some?
    ensures !r.draft && SELECTION in r.assets && r.assets[SELECTION].content.ReceiptFile?
    ensures var core := r.assets[SELECTION].content.selection;
            core.tier.Core? && BoundTo(w, r, core) && TrailingSafe(w, r, core)
    ensures ValidCandidate(w, tsel)
    ensures var full := TrailingAdditions(w, retained, r, tsel).value;
            && (forall n :: n in full <==> Owns(Trailing, n))
            && (forall n :: n in full ==> full[n] == CandidateFile(w, tsel, n))
            && (forall n :: n in r.assets && n in full ==> r.assets[n].content == full[n])
  {
    var full := TrailingAdditions(w, retained, r, tsel).value;
    StagedFiles(w, retained, tsel, full);
    assert forall n :: n in r.assets ==> n in Inventory(r) && Inventory(r)[n] == r.assets[n].content;
  }

  lemma TrailingUploadsKeepBound(w: World, r: Remote, core: Selection, full: Files, order: seq<Name>, k: nat)
    requires r.Present? && k <= |order| && Lists(order, full, r) && !r.draft
    requires core.tier.Core? && BoundTo(w, r, core) && forall n :: n in full <==> Owns(Trailing, n)
    ensures BoundTo(w, Uploads(r, full, order, k), core)
  {
    UploadsSpec(r, full, order, k);
    var r' := Uploads(r, full, order, k);
    forall n | n in r'.assets && n !in r.assets ensures Owns(Trailing, n) && !Owns(Core, n) {
      assert n in order;
      TiersAreDisjoint(n);
    }
  }

  /** In rank order, every interrupted addition is closed under rank. */
  lemma TrailingUploadsKeepRank(r: Remote, full: Files, order: seq<Name>, k: nat, a: Name, b: Name)
    requires r.Present? && k <= |order| && RecoverOrder(order, full, r, Trailing)
    requires forall n :: n in full <==> Owns(Trailing, n)
    requires RankClosed(Inventory(r))
    requires Owns(Trailing, a) && Owns(Trailing, b) && Rank(a) < Rank(b)
    requires b in Uploads(r, full, order, k).assets
    ensures a in Uploads(r, full, order, k).assets
  {
    UploadsSpec(r, full, order, k);
    if a !in r.assets {
      assert b !in Inventory(r);
      assert a in order && b in order[..k];
      LowerRankComesFirst(order, k, a, b);
    }
  }

  lemma LowerRankComesFirst(order: seq<Name>, k: nat, a: Name, b: Name)
    requires k <= |order| && a in order && b in order[..k] && Rank(a) < Rank(b)
    requires forall i, j :: 0 <= i < j < |order| ==> Rank(order[i]) <= Rank(order[j])
    ensures a in order[..k]
  {
    var i :| 0 <= i < |order| && order[i] == a;
    var j :| 0 <= j < k && order[..k][j] == b;
    assert order[j] == b && i < k;
    assert a == order[..k][i];
  }

  /** Before the first trailing file there is nothing to close. */
  lemma RankClosedBefore(w: World, r: Remote, core: Selection)
    requires r.Present? && core.tier.Core? && TrailingSafe(w, r, core)
    ensures RankClosed(Inventory(r))
  {}

  lemma TrailingUploadsKeepPart(w: World, r: Remote, core: Selection, tsel: Selection, full: Files, order: seq<Name>,
                                k: nat)
    requires r.Present? && k <= |order| && RecoverOrder(order, full, r, Trailing)
    requires core.tier.Core? && TrailingSafe(w, r, core)
    requires tsel.tier.Trailing? && ValidCandidate(w, tsel)
    requires forall n :: n in full <==> Owns(Trailing, n)
    requires forall n :: n in full ==> full[n] == CandidateFile(w, tsel, n)
    requires forall n :: n in r.assets && n in full ==> r.assets[n].content == full[n]
    ensures TrailingPart(w, Inventory(Uploads(r, full, order, k)), tsel)
  {
    UploadsSpec(r, full, order, k);
    var r' := Uploads(r, full, order, k);
    forall n | n in r'.assets && Owns(Trailing, n) ensures r'.assets[n].content == CandidateFile(w, tsel, n) {
      if n !in r.assets { assert n in order[..k]; }
    }
    RankClosedBefore(w, r, core);
    forall a, b | Owns(Trailing, a) && Owns(Trailing, b) && b in r'.assets && Rank(a) < Rank(b) ensures a in r'.assets {
      TrailingUploadsKeepRank(r, full, order, k, a, b);
    }
  }

  lemma TrailingSafeFrom(w: World, r: Remote, core: Selection, tsel: Selection)
    requires r.Present? && TrailingPart(w, Inventory(r), tsel)
    ensures TrailingSafe(w, r, core)
  {
    if n :| n in r.assets && Owns(Trailing, n) {
      assert n == Receipt(true) || Rank(Receipt(true)) < Rank(n);
      assert n in Inventory(r) && Owns(Trailing, Receipt(true));
      assert Receipt(true) in Inventory(r);
      assert r.assets[Receipt(true)].content == CandidateFile(w, tsel, Receipt(true));
    }
  }

  lemma TrailingRecoverKeepsSafe(w: World, retained: set<Selection>, r: Remote, tsel: Selection, order: seq<Name>,
                                 k: nat)
    requires Safe(w, r) && tsel.tier.Trailing? && r.Present? && TrailingAdditions(w, retained, r, tsel).Some?
    requires RecoverOrder(order, TrailingAdditions(w, retained, r, tsel).value, r, Trailing) && k <= |order|
    ensures Safe(w, Uploads(r, TrailingAdditions(w, retained, r, tsel).value, order, k))
  {
    TrailingInputs(w, retained, r, tsel);
    var full := TrailingAdditions(w, retained, r, tsel).value;
    var core := r.assets[SELECTION].content.selection;
    var r' := Uploads(r, full, order, k);
    TrailingUploadsKeepBound(w, r, core, full, order, k);
    TrailingUploadsKeepPart(w, r, core, tsel, full, order, k);
    TrailingSafeFrom(w, r', core, tsel);
    assert IdsOk(r') by { UploadsSpec(r, full, order, k); }
    SafeFrom(w, r', core);
  }

  lemma RecoverKeepsSafe(w: World, retained: set<Selection>, r: Remote, sel: Selection, order: seq<Name>, writes: nat)
    requires Safe(w, r)
    ensures Safe(w, RecoverRun(w, retained, r, sel, order, writes))
    ensures AddOnly(r, RecoverRun(w, retained, r, sel, order, writes))
  {
    var additions := Additions(w, retained, r, sel);
    if additions.Some? && RecoverOrder(order, additions.value, r, sel.tier) {
      var k := Min(writes, |order|);
      UploadsSpec(r, additions.value, order, k);
      if sel.tier.Trailing? {
        TrailingRecoverKeepsSafe(w, retained, r, sel, order, k);
      } else {
        CoreRecoverKeepsSafe(w, retained, r, sel, order, k);
      }
    }
  }

  // ----- Whole histories -----

  /** Over every sequence of promotions and recoveries, each cut after any write:
      a nonempty release carries the receipt, all its core files are the ones
      that receipt binds, a public release is complete, and trailing files are
      one candidate's, closed under rank, on a public core release. */
  lemma {:induction false} EveryHistoryIsSafe(w: World, runs: seq<Run>)
    ensures Safe(w, After(w, runs))
  {
    if runs != [] {
      var init, run := runs[..|runs| - 1], runs[|runs| - 1];
      EveryHistoryIsSafe(w, init);
      match run
      case Promote(retained, sel, staged, order, writes) =>
        PublishKeepsSafe(w, retained, After(w, init), sel, staged, order, writes);
      case Recover(retained, sel, order, writes) =>
        RecoverKeepsSafe(w, retained, After(w, init), sel, order, writes);
    }
  }

  /** Over the rest of any history no existing asset changes its id or bytes, and
      a public release stays public. */
  lemma {:induction false} HistoryIsAddOnly(w: World, runs: seq<Run>, k: nat)
    requires k <= |runs|
    ensures AddOnly(After(w, runs[..k]), After(w, runs))
  {
    if k == |runs| {
      assert runs[..k] == runs;
    } else {
      var init, run := runs[..|runs| - 1], runs[|runs| - 1];
      HistoryIsAddOnly(w, init, k);
      assert init[..k] == runs[..k];
      EveryHistoryIsSafe(w, init);
      match run
      case Promote(retained, sel, staged, order, writes) =>
        PublishKeepsSafe(w, retained, After(w, init), sel, staged, order, writes);
      case Recover(retained, sel, order, writes) =>
        RecoverKeepsSafe(w, retained, After(w, init), sel, order, writes);
    }
  }
}
