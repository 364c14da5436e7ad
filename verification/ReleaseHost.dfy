/** `publish` and `recover` as they run: upload order by sorting, one remote
    write after another, stopping when the run is cut. */
module ReleaseHost {
  import opened Strings
  import opened Wrappers
  import opened ReleaseNames
  import opened Candidates
  import opened Release

  // ----- Sorting names -----

  /** The sort key of a file: rank when uploading the trailing tier, then the name. */
  datatype Entry = Entry(rank: nat, text: string, name: Name)

  function EntryOf(version: string, tier: Tier, n: Name): Entry {
    Entry(if tier.Trailing? then Rank(n) else 0, Text(version, n), n)
  }

  predicate KeyLe(a: Entry, b: Entry) {
    a.rank < b.rank || (a.rank == b.rank && LexLe(a.text, b.text))
  }

  ghost predicate Sorted(entries: seq<Entry>) {
    forall i, j :: 0 <= i < j < |entries| ==> KeyLe(entries[i], entries[j])
  }

  lemma KeyTransitive(a: Entry, b: Entry, c: Entry)
    requires KeyLe(a, b) && KeyLe(b, c)
    ensures KeyLe(a, c)
  {
    if LexLe(a.text, b.text) && LexLe(b.text, c.text) { LexTransitive(a.text, b.text, c.text); }
  }

  /** The entries, behind those that do not come after `e` the rest. */
  method InsertEntry(entries: seq<Entry>, e: Entry) returns (more: seq<Entry>)
    requires Sorted(entries)
    ensures Sorted(more) && multiset(more) == multiset(entries) + multiset{e}
  {
    var at := 0;
    while at < |entries| && KeyLe(entries[at], e)
      invariant 0 <= at <= |entries|
      invariant forall i :: 0 <= i < at ==> KeyLe(entries[i], e)
    {
      at := at + 1;
    }
    forall j | at <= j < |entries| ensures KeyLe(e, entries[j]) {
      LexTotal(entries[at].text, e.text);
      if at < j { KeyTransitive(e, entries[at], entries[j]); }
    }
    more := entries[..at] + [e] + entries[at..];
    SortedInsert(entries, e, at);
  }

  lemma SortedInsert(entries: seq<Entry>, e: Entry, at: nat)
    requires Sorted(entries) && at <= |entries|
    requires forall i :: 0 <= i < at ==> KeyLe(entries[i], e)
    requires forall j :: at <= j < |entries| ==> KeyLe(e, entries[j])
    ensures var more := entries[..at] + [e] + entries[at..];
            Sorted(more) && multiset(more) == multiset(entries) + multiset{e}
  {
    var more := entries[..at] + [e] + entries[at..];
    forall i, j | 0 <= i < j < |more| ensures KeyLe(more[i], more[j]) {
      var a := if i <= at then i else i - 1;
      var b := if j <= at then j else j - 1;
      assert i == at || more[i] == entries[a];
      assert j == at || more[j] == entries[b];
    }
    assert entries == entries[..at] + entries[at..];
  }

  ghost function Entries(version: string, tier: Tier, order: seq<Name>): (es: seq<Entry>)
    ensures |es| == |order| && forall i :: 0 <= i < |order| ==> es[i] == EntryOf(version, tier, order[i])
  {
    seq(|order|, i requires 0 <= i < |order| => EntryOf(version, tier, order[i]))
  }

  function NamesOf(entries: seq<Entry>): (order: seq<Name>)
    ensures |order| == |entries| && forall i :: 0 <= i < |entries| ==> order[i] == entries[i].name
  {
    seq(|entries|, i requires 0 <= i < |entries| => entries[i].name)
  }

  /** Each name's entry once, sorted. */
  method SortEntries(entry: Name -> Entry, names: set<Name>) returns (entries: seq<Entry>)
    requires forall n :: entry(n).name == n
    ensures Sorted(entries) && Distinct(NamesOf(entries))
    ensures forall i :: 0 <= i < |entries| ==> entries[i] == entry(entries[i].name)
    ensures forall n :: n in NamesOf(entries) <==> n in names
  {
    entries := [];
    var left := names;
    while left != {}
      invariant left <= names && Sorted(entries)
      invariant forall e :: e in multiset(entries) ==> e == entry(e.name)
      invariant forall n :: multiset(entries)[entry(n)] == if n in names && n !in left then 1 else 0
      decreases left
    {
      var n :| n in left;
      entries := InsertEntry(entries, entry(n));
      left := left - {n};
    }
    SortedNames(entry, names, entries);
    forall i | 0 <= i < |entries|
      ensures entries[i] == entry(entries[i].name)
    {
      assert entries[i] in multiset(entries);
    }
  }

  /** All names once each, by rank for the trailing tier and then by name. */
  method SortNames(version: string, tier: Tier, names: set<Name>) returns (order: seq<Name>)
    ensures Sorted(Entries(version, tier, order)) && Distinct(order)
    ensures forall n :: n in order <==> n in names
  {
    var entries := SortEntries(n => EntryOf(version, tier, n), names);
    order := NamesOf(entries);
    assert Entries(version, tier, order) == entries;
  }

  lemma SortedNames(entry: Name -> Entry, names: set<Name>, entries: seq<Entry>)
    requires forall n :: entry(n).name == n
    requires forall e :: e in multiset(entries) ==> e == entry(e.name)
    requires forall n :: multiset(entries)[entry(n)] == if n in names then 1 else 0
    ensures Distinct(NamesOf(entries)) && forall n :: n in NamesOf(entries) <==> n in names
  {
    var order := NamesOf(entries);
    forall i, j | 0 <= i < j < |order| ensures order[i] != order[j] {
      assert entries[i] in multiset(entries) && entries[j] in multiset(entries);
      if entries[i] == entries[j] { CountTwo(entries, i, j); }
    }
    forall n: Name ensures n in order <==> n in names {
      NamedEntry(entry, entries, n);
    }
  }

  lemma CountTwo(entries: seq<Entry>, i: nat, j: nat)
    requires i < j < |entries| && entries[i] == entries[j]
    ensures multiset(entries)[entries[i]] >= 2
  {
    assert entries == entries[..j] + [entries[j]] + entries[j + 1..];
    assert entries[i] in entries[..j];
  }

  lemma NamedEntry(entry: Name -> Entry, entries: seq<Entry>, n: Name)
    requires entry(n).name == n && forall e :: e in multiset(entries) ==> e == entry(e.name)
    ensures n in NamesOf(entries) <==> entry(n) in multiset(entries)
  {
    var order := NamesOf(entries);
    if entry(n) in multiset(entries) {
      var i :| 0 <= i < |entries| && entries[i] == entry(n);
      assert order[i] == n;
    }
    if n in order {
      var i :| 0 <= i < |order| && order[i] == n;
      assert entries[i] in multiset(entries);
    }
  }

  /** Sorted by key, the trailing tier is in rank order. */
  lemma SortedByRank(version: string, order: seq<Name>)
    requires Sorted(Entries(version, Trailing, order))
    ensures forall i, j :: 0 <= i < j < |order| ==> Rank(order[i]) <= Rank(order[j])
  {
    var es := Entries(version, Trailing, order);
    forall i, j | 0 <= i < j < |order| ensures Rank(order[i]) <= Rank(order[j]) {
      assert KeyLe(es[i], es[j]);
    }
  }

  class Host {
    var remote: Remote
    /** Remote writes before the current run stops. */
    var budget: nat

    constructor (writes: nat)
      ensures remote.Absent? && budget == writes
    {
      remote, budget := Absent, writes;
    }

    /** Uploads in order until the budget is spent. */
    method UploadAll(files: Files, order: seq<Name>)
      requires remote.Present? && forall n :: n in order ==> n in files
      modifies this
      ensures remote == Uploads(old(remote), files, order, Min(old(budget), |order|))
      ensures budget == old(budget) - Min(old(budget), |order|)
    {
      var i := 0;
      while i < |order| && budget > 0
        invariant 0 <= i <= |order| && old(budget) == budget + i
        invariant remote == Uploads(old(remote), files, order, i)
      {
        var name := order[i];
        if name !in remote.assets {
          remote := Present(remote.draft, remote.assets[name := Asset(remote.nextId, files[name])], remote.nextId + 1);
        }
        budget := budget - 1;
        i := i + 1;
      }
    }

    /** The writes of a permitted promotion: create the draft, upload, read back,
        make public. */
    method WriteAll(staged: Files, order: seq<Name>) returns (done: bool)
      requires PublishOrder(order, staged, remote)
      requires Readback(Uploads(if remote.Absent? then NEW_DRAFT else remote, staged, order, |order|),
                        Inventory(remote) + staged, remote)
      modifies this
      ensures remote == PublishWrites(old(remote), staged, order, old(budget))
      ensures done <==> old(budget) >= WritesNeeded(old(remote), order)
      ensures done ==>
                remote.Present? && !remote.draft && Readback(remote, Inventory(old(remote)) + staged, old(remote))
    {
      done := false;
      var before := remote;
      if remote.Absent? {
        if budget == 0 {
          return;
        }
        remote := NEW_DRAFT;
        budget := budget - 1;
      }
      var left := budget;
      UploadAll(staged, order);
      if left < |order| || !Readback(remote, Inventory(before) + staged, before) {
        return;
      }
      if remote.draft {
        if budget == 0 {
          return;
        }
        remote := remote.(draft := false);
        assert Inventory(remote) == Inventory(remote.(draft := true));
      }
      done := true;
    }

    /** Promotion of staged bytes; `done` when the run reached its end. */
    method Publish(w: World, retained: set<Selection>, sel: Selection, staged: Files)
      returns (done: bool, order: seq<Name>)
      modifies this
      ensures remote == PublishRun(w, retained, old(remote), sel, staged, order, old(budget))
      ensures MayPublish(w, retained, old(remote), sel, staged) ==> PublishOrder(order, staged, old(remote))
      ensures done <==>
                MayPublish(w, retained, old(remote), sel, staged) && old(budget) >= WritesNeeded(old(remote), order)
      ensures done ==>
                remote.Present? && !remote.draft && Readback(remote, Inventory(old(remote)) + staged, old(remote))
    {
      done, order := false, [];
      if !MayPublish(w, retained, remote, sel, staged) {
        return;
      }
      var missing := staged.Keys - Inventory(remote).Keys;
      var rest := SortNames(w.source.version, sel.tier, missing - {SELECTION});
      order := (if SELECTION in missing then [SELECTION] else []) + rest;
      OrderLists(order, rest, missing, staged, remote);
      StartedReadsBack(w, retained, remote, if remote.Absent? then NEW_DRAFT else remote, sel, staged, order);
      done := WriteAll(staged, order);
    }

    /** Add-only recovery; `done` when all uploads were made and read back. */
    method Recover(w: World, retained: set<Selection>, sel: Selection) returns (done: bool, order: seq<Name>)
      modifies this
      ensures remote == RecoverRun(w, retained, old(remote), sel, order, old(budget))
      ensures Additions(w, retained, old(remote), sel).Some? ==>
                RecoverOrder(order, Additions(w, retained, old(remote), sel).value, old(remote), sel.tier)
      ensures done <==> Additions(w, retained, old(remote), sel).Some? && old(budget) >= |order|
      ensures done ==> Readback(remote, Inventory(old(remote)) + Additions(w, retained, old(remote), sel).value,
                                old(remote))
    {
      done, order := false, [];
      var additions := Additions(w, retained, remote, sel);
      if additions.None? {
        return;
      }
      var before := remote;
      order := SortNames(w.source.version, sel.tier, additions.value.Keys - Inventory(remote).Keys);
      if sel.tier.Trailing? {
        SortedByRank(w.source.version, order);
      }
      AdditionsReadBack(w, retained, before, sel, order);
      var left := budget;
      UploadAll(additions.value, order);
      done := left >= |order| && Readback(remote, Inventory(before) + additions.value, before);
    }
  }

  /** Remote writes a promotion makes from here to its end. */
  function WritesNeeded(r: Remote, order: seq<Name>): nat {
    |order| + if r.Absent? then 2 else if r.draft then 1 else 0
  }

  lemma StartedReadsBack(w: World, retained: set<Selection>, r: Remote, start: Remote, sel: Selection, staged: Files,
                         order: seq<Name>)
    requires MayPublish(w, retained, r, sel, staged) && PublishOrder(order, staged, r)
    requires start == if r.Absent? then NEW_DRAFT else r
    ensures Readback(Uploads(start, staged, order, |order|), Inventory(r) + staged, r)
  {
    assert Inventory(start) == Inventory(r);
    forall n | n in Inventory(r) && n in staged ensures Inventory(r)[n] == staged[n] {
      assert n !in Carried(Inventory(r), staged, sel);
    }
    FullUpload(start, r, staged, order);
  }

  lemma AdditionsReadBack(w: World, retained: set<Selection>, r: Remote, sel: Selection, order: seq<Name>)
    requires Additions(w, retained, r, sel).Some? && Lists(order, Additions(w, retained, r, sel).value, r)
    ensures Readback(Uploads(r, Additions(w, retained, r, sel).value, order, |order|),
                     Inventory(r) + Additions(w, retained, r, sel).value, r)
  {
    var full := Additions(w, retained, r, sel).value;
    forall n | n in Inventory(r) && n in full ensures Inventory(r)[n] == full[n] {
      if !sel.tier.Trailing? { assert n !in Carried(Inventory(r), full, sel); }
    }
    FullUpload(r, r, full, order);
  }

  lemma OrderLists(order: seq<Name>, rest: seq<Name>, missing: set<Name>, staged: Files, r: Remote)
    requires missing == staged.Keys - Inventory(r).Keys
    requires Distinct(rest) && forall n :: n in rest <==> n in missing - {SELECTION}
    requires order == (if SELECTION in missing then [SELECTION] else []) + rest
    ensures PublishOrder(order, staged, r)
  {
    assert SELECTION !in rest;
  }
}
