/** What the merge of a saved queue guarantees, whatever the caller had seen
    (console/src/lib/send-attempt-storage.ts). */
module SendMerge {
  import opened Wrappers
  import opened SendAttempts

  // ----- Gathering -----

  ghost predicate From(rows: seq<Attempt>, m: map<string, Attempt>, a: Attempt) {
    exists k :: 0 <= k < |rows| && rows[k].id in m && a == m[rows[k].id]
  }

  lemma {:induction false} GatherMembers(rows: seq<Attempt>, m: map<string, Attempt>)
    ensures forall i :: 0 <= i < |Gather(rows, m)| ==> From(rows, m, Gather(rows, m)[i])
    ensures forall k :: 0 <= k < |rows| && rows[k].id in m ==> m[rows[k].id] in Gather(rows, m)
  {
    if rows != [] {
      var init := rows[..|rows| - 1];
      GatherMembers(init, m);
      assert forall k :: 0 <= k < |init| ==> init[k] == rows[k];
      forall i | 0 <= i < |Gather(rows, m)| ensures From(rows, m, Gather(rows, m)[i]) {
        if i < |Gather(init, m)| {
          assert From(init, m, Gather(init, m)[i]);
        } else {
          assert rows[|rows| - 1].id in m;
        }
      }
    }
  }

  ghost predicate Keyed(m: map<string, Attempt>) {
    forall id :: id in m ==> m[id].id == id
  }

  lemma {:induction false} GatherIsUnique(rows: seq<Attempt>, m: map<string, Attempt>)
    requires Unique(rows) && Keyed(m)
    ensures Unique(Gather(rows, m))
  {
    if rows != [] {
      GatherIsUnique(rows[..|rows| - 1], m);
      GatherMembers(rows[..|rows| - 1], m);
    }
  }

  lemma {:induction false} GatherAll(rows: seq<Attempt>, m: map<string, Attempt>)
    requires forall k :: 0 <= k < |rows| ==> rows[k].id in m
    ensures |Gather(rows, m)| == |rows| && forall k :: 0 <= k < |rows| ==> Gather(rows, m)[k] == m[rows[k].id]
  {
    if rows != [] { GatherAll(rows[..|rows| - 1], m); }
  }

  lemma {:induction false} GatherNone(rows: seq<Attempt>, m: map<string, Attempt>)
    requires forall k :: 0 <= k < |rows| ==> rows[k].id !in m
    ensures Gather(rows, m) == []
  {
    if rows != [] { GatherNone(rows[..|rows| - 1], m); }
  }

  // ----- The merge -----

  lemma OutcomesAreKeyed(current: seq<Attempt>, next: seq<Attempt>, previous: seq<Attempt>)
    ensures Keyed(Outcomes(IdMap(current), IdMap(next), IdMap(previous)))
  {
    IdMapSpec(current);
    IdMapSpec(next);
  }

  /** The merged queue is exactly the outcomes: a row is there if and only if it is kept. */
  lemma MergedRows(current: seq<Attempt>, next: seq<Attempt>, previous: seq<Attempt>, m: map<string, Attempt>)
    requires m == Outcomes(IdMap(current), IdMap(next), IdMap(previous))
    ensures forall a :: a in Merged(current, next, previous) ==> a.id in m && a == m[a.id]
    ensures forall id :: id in m ==> m[id] in Merged(current, next, previous)
  {
    var n := IdMap(next);
    OutcomesAreKeyed(current, next, previous);
    GatherMembers(next, m);
    GatherMembers(current, m - n.Keys);
    forall id | id in m ensures m[id] in Merged(current, next, previous) {
      IdMapKeys(next, id);
      IdMapKeys(current, id);
    }
  }

  lemma MergedIsUnique(current: seq<Attempt>, next: seq<Attempt>, previous: seq<Attempt>)
    requires Unique(current) && Unique(next)
    ensures Unique(Merged(current, next, previous))
  {
    var n := IdMap(next);
    var m := Outcomes(IdMap(current), n, IdMap(previous));
    OutcomesAreKeyed(current, next, previous);
    GatherIsUnique(next, m);
    GatherIsUnique(current, m - n.Keys);
    GatherMembers(next, m);
    GatherMembers(current, m - n.Keys);
    IdMapSpec(next);
  }

  // ----- What a save keeps -----

  lemma CheckedSpec(c: map<string, Attempt>, merged: seq<Attempt>, namespace: string, destination: string)
    requires Checked(c, merged, namespace, destination).Some? && Keyed(c)
    ensures var m := Checked(c, merged, namespace, destination).value;
            && |m| == |merged|
            && forall i :: 0 <= i < |m| ==>
                 && m[i].id == merged[i].id
                 && (m[i].id in c && c[m[i].id].envelope.Some? ==> m[i].envelope == c[m[i].id].envelope)
                 && (m[i].id in c && c[m[i].id].state == Accepted ==> m[i] == c[m[i].id])
                 && (!(m[i].id in c && c[m[i].id].state == Accepted) ==> m[i] == merged[i])
  {}

  /** No save, however stale the caller's view, replaces a frozen envelope or
      changes an accepted row. */
  lemma SaveKeepsFrozen(current: seq<Attempt>, next: seq<Attempt>, previous: Option<seq<Attempt>>, namespace: string,
                        destination: string, i: nat, j: nat)
    requires Unique(current) && Save(current, next, previous, namespace, destination).Some?
    requires i < |current| && j < |Save(current, next, previous, namespace, destination).value|
    requires Save(current, next, previous, namespace, destination).value[j].id == current[i].id
    ensures var b := Save(current, next, previous, namespace, destination).value[j];
            && (current[i].envelope.Some? ==> b.envelope == current[i].envelope)
            && (current[i].state == Accepted ==> b == current[i])
  {
    IdMapSpec(current);
    CheckedSpec(IdMap(current), if previous.Some? then Merged(current, next, previous.value) else next, namespace,
                destination);
  }

  /** Rows that other tabs added since the caller looked are all kept as they are. */
  lemma SaveKeepsOthers(current: seq<Attempt>, next: seq<Attempt>, previous: seq<Attempt>, namespace: string,
                        destination: string, i: nat)
    requires Unique(current) && Save(current, next, Some(previous), namespace, destination).Some?
    requires i < |current| && current[i].id !in Ids(previous)
    ensures current[i] in Save(current, next, Some(previous), namespace, destination).value
  {
    var c, merged, id := IdMap(current), Merged(current, next, previous), current[i].id;
    var m := Outcomes(c, IdMap(next), IdMap(previous));
    IdMapSpec(current);
    IdMapKeys(previous, id);
    MergedRows(current, next, previous, m);
    assert id in m && m[id] == current[i];
    SaveKeepsPicked(current, merged, namespace, destination, i);
  }

  lemma SaveKeepsPicked(current: seq<Attempt>, merged: seq<Attempt>, namespace: string, destination: string, i: nat)
    requires Unique(current) && i < |current| && current[i] in merged
             && Checked(IdMap(current), merged, namespace, destination).Some?
    ensures current[i] in Checked(IdMap(current), merged, namespace, destination).value
  {
    IdMapSpec(current);
    var k :| 0 <= k < |merged| && merged[k] == current[i];
    assert Settled(IdMap(current), merged)[k] == current[i];
  }

  /** A row the caller knew is gone if the caller or anyone else removed it: no
      stale view brings a removed row back. */
  lemma SaveHonoursRemoval(current: seq<Attempt>, next: seq<Attempt>, previous: seq<Attempt>, namespace: string,
                           destination: string, id: string)
    requires Save(current, next, Some(previous), namespace, destination).Some?
    requires id in Ids(previous) && (id !in Ids(next) || id !in Ids(current))
    ensures id !in Ids(Save(current, next, Some(previous), namespace, destination).value)
  {
    var c, merged := IdMap(current), Merged(current, next, previous);
    var m := Outcomes(c, IdMap(next), IdMap(previous));
    IdMapKeys(current, id);
    IdMapKeys(next, id);
    IdMapKeys(previous, id);
    assert id !in m;
    MergedRows(current, next, previous, m);
    SettledIds(current, merged);
  }

  lemma SettledIds(current: seq<Attempt>, merged: seq<Attempt>)
    ensures Ids(Settled(IdMap(current), merged)) == Ids(merged)
  {
    IdMapSpec(current);
  }

  lemma SavedRowInScope(current: seq<Attempt>, merged: seq<Attempt>, namespace: string, destination: string, i: nat)
    requires AllInScope(current, namespace, destination) && AllInScope(merged, namespace, destination) && i < |merged|
    ensures InScope(KeepAccepted(IdMap(current), merged[i]), namespace, destination)
  {
    IdMapSpec(current);
    if merged[i].id in IdMap(current) {
      var k :| 0 <= k < |current| && current[k] == IdMap(current)[merged[i].id];
    }
  }

  lemma SettledIsReadable(current: seq<Attempt>, merged: seq<Attempt>, namespace: string, destination: string)
    requires AllInScope(current, namespace, destination) && AllInScope(merged, namespace, destination) && Unique(merged)
    ensures Readable(Settled(IdMap(current), merged), namespace, destination)
  {
    var m := Settled(IdMap(current), merged);
    SettledIds(current, merged);
    forall i, j | 0 <= i < j < |m| ensures m[i].id != m[j].id {
      assert Ids(m)[i] == merged[i].id && Ids(m)[j] == merged[j].id;
    }
    forall i | 0 <= i < |m| ensures InScope(m[i], namespace, destination) {
      SavedRowInScope(current, merged, namespace, destination, i);
    }
  }

  /** What is saved can be loaded again. */
  lemma SaveStaysReadable(current: seq<Attempt>, next: seq<Attempt>, previous: seq<Attempt>, namespace: string,
                          destination: string, m: seq<Attempt>)
    requires Readable(current, namespace, destination) && Unique(next)
    requires Save(current, next, Some(previous), namespace, destination) == Some(m)
    ensures Readable(m, namespace, destination)
  {
    MergedIsUnique(current, next, previous);
    SettledIsReadable(current, Merged(current, next, previous), namespace, destination);
  }

  // ----- Saving under the lock -----

  /** A caller that loaded under the same lock had seen exactly the stored rows,
      each perhaps before its lease ran out. */
  ghost predicate SameRows(current: seq<Attempt>, previous: seq<Attempt>) {
    |current| == |previous| && forall i :: 0 <= i < |current| ==> current[i].id == previous[i].id
  }

  lemma MergedUnderLock(current: seq<Attempt>, next: seq<Attempt>, previous: seq<Attempt>)
    requires SameRows(current, previous)
    ensures var c, n, p := IdMap(current), IdMap(next), IdMap(previous);
            && |Merged(current, next, previous)| == |next|
            && forall i :: 0 <= i < |next| ==>
                 Kept(c, n, p, next[i].id) && Merged(current, next, previous)[i] == Row(c, n, p, next[i].id)
  {
    var c, n, p := IdMap(current), IdMap(next), IdMap(previous);
    var m := Outcomes(c, n, p);
    assert Ids(current) == Ids(previous);
    forall id ensures (id in c <==> id in p) {
      IdMapKeys(current, id);
      IdMapKeys(previous, id);
    }
    IdMapSpec(next);
    IdMapSpec(current);
    GatherAll(next, m);
    GatherNone(current, m - n.Keys);
  }

  lemma SeenRow(current: seq<Attempt>, previous: seq<Attempt>, k: nat)
    requires SameRows(current, previous) && Unique(current) && k < |current|
    ensures var id := current[k].id;
            && id in IdMap(current) && id in IdMap(previous)
            && IdMap(current)[id] == current[k] && IdMap(previous)[id] == previous[k]
  {
    IdMapSpec(current);
    IdMapSpec(previous);
    assert current[k].id == previous[k].id;
  }

  lemma UnseenRow(rows: seq<Attempt>, id: string)
    ensures id in IdMap(rows) ==> exists k :: 0 <= k < |rows| && rows[k].id == id
  {
    IdMapSpec(rows);
  }

  /** Row `i` of the merge, in terms of the sequences. */
  lemma MergedRowUnderLock(current: seq<Attempt>, next: seq<Attempt>, previous: seq<Attempt>, i: nat)
    requires SameRows(current, previous) && Unique(current) && Unique(next) && i < |next|
    ensures |Merged(current, next, previous)| == |next|
    ensures forall k :: 0 <= k < |current| && current[k].id == next[i].id ==>
            Merged(current, next, previous)[i] == Pick(current[k], next[i], previous[k])
    ensures next[i].id !in Ids(current) ==> Merged(current, next, previous)[i] == next[i]
  {
    MergedUnderLock(current, next, previous);
    IdMapSpec(next);
    forall k | 0 <= k < |current| && current[k].id == next[i].id
      ensures Merged(current, next, previous)[i] == Pick(current[k], next[i], previous[k])
    {
      SeenRow(current, previous, k);
    }
    assert Ids(current) == Ids(previous);
    IdMapKeys(current, next[i].id);
    IdMapKeys(previous, next[i].id);
  }

  /** Row `b` is the caller's row `a` unless the caller left it alone or the
      stored one is accepted; then it is the stored one. */
  ghost predicate WrittenRow(current: seq<Attempt>, previous: seq<Attempt>, a: Attempt, b: Attempt)
    requires SameRows(current, previous)
  {
    && (forall k :: 0 <= k < |current| && current[k].id == a.id ==> b == Pick(current[k], a, previous[k]))
    && (a.id !in Ids(current) ==> b == a)
  }

  ghost predicate Written(current: seq<Attempt>, next: seq<Attempt>, previous: seq<Attempt>, m: seq<Attempt>)
    requires SameRows(current, previous)
  {
    |m| == |next| && forall i :: 0 <= i < |next| ==> WrittenRow(current, previous, next[i], m[i])
  }

  lemma WrittenAt(current: seq<Attempt>, next: seq<Attempt>, previous: seq<Attempt>, i: nat, b: Attempt)
    requires SameRows(current, previous) && Unique(current) && Unique(next) && i < |next|
    requires |Merged(current, next, previous)| == |next|
             && b == KeepAccepted(IdMap(current), Merged(current, next, previous)[i])
    ensures WrittenRow(current, previous, next[i], b)
  {
    MergedRowUnderLock(current, next, previous, i);
    IdMapKeys(current, next[i].id);
    forall k | 0 <= k < |current| && current[k].id == next[i].id ensures b == Pick(current[k], next[i], previous[k]) {
      SeenRow(current, previous, k);
    }
  }

  /** Under the lock a save is the caller's update row for row, in the caller's
      order, and it can be loaded again. */
  lemma LockedSaveIsUpdate(current: seq<Attempt>, next: seq<Attempt>, previous: seq<Attempt>, namespace: string,
                           destination: string, m: seq<Attempt>)
    requires SameRows(current, previous) && Readable(current, namespace, destination) && Unique(next)
    requires Save(current, next, Some(previous), namespace, destination) == Some(m)
    ensures Written(current, next, previous, m) && Readable(m, namespace, destination)
  {
    SaveStaysReadable(current, next, previous, namespace, destination, m);
    MergedUnderLock(current, next, previous);
    assert m == Settled(IdMap(current), Merged(current, next, previous));
    forall i | 0 <= i < |next| ensures WrittenRow(current, previous, next[i], m[i]) {
      WrittenAt(current, next, previous, i, m[i]);
    }
  }

  /** The caller left the row alone, or wrote a good one that keeps the stored envelope. */
  ghost predicate Proper(current: seq<Attempt>, previous: seq<Attempt>, a: Attempt, namespace: string,
                         destination: string)
    requires SameRows(current, previous)
  {
    && (forall k :: 0 <= k < |current| && current[k].id == a.id ==>
          a == previous[k] || (InScope(a, namespace, destination)
                               && (current[k].envelope.Some? ==> a.envelope == current[k].envelope)))
    && (a.id !in Ids(current) ==> InScope(a, namespace, destination))
  }

  lemma ProperAt(current: seq<Attempt>, previous: seq<Attempt>, a: Attempt, namespace: string, destination: string,
                 i: nat)
    requires SameRows(current, previous) && Unique(current) && i < |current| && current[i].id == a.id
    requires a == previous[i] || (InScope(a, namespace, destination)
                                  && (current[i].envelope.Some? ==> a.envelope == current[i].envelope))
    ensures Proper(current, previous, a, namespace, destination)
  {
    assert Ids(current)[i] == a.id;
  }

  lemma ProperDoesNotClash(current: seq<Attempt>, previous: seq<Attempt>, a: Attempt, namespace: string,
                           destination: string, k: nat)
    requires SameRows(current, previous) && k < |current| && Valid(current[k]) && current[k].id == a.id
    requires Proper(current, previous, a, namespace, destination)
    ensures !Clash(current[k], a, previous[k])
  {}

  lemma NoClashUnderLock(current: seq<Attempt>, next: seq<Attempt>, previous: seq<Attempt>, namespace: string,
                         destination: string)
    requires SameRows(current, previous) && Readable(current, namespace, destination) && Unique(next)
    requires forall i :: 0 <= i < |next| ==> Proper(current, previous, next[i], namespace, destination)
    ensures !Clashes(IdMap(current), IdMap(next), IdMap(previous))
  {
    var c, n, p := IdMap(current), IdMap(next), IdMap(previous);
    forall id | id in p && id in n && id in c ensures !Clash(c[id], n[id], p[id]) {
      UnseenRow(current, id);
      UnseenRow(next, id);
      var k :| 0 <= k < |current| && current[k].id == id;
      var i :| 0 <= i < |next| && next[i].id == id;
      SeenRow(current, previous, k);
      SeenRow(next, next, i);
      assert InScope(current[k], namespace, destination);
      ProperDoesNotClash(current, previous, next[i], namespace, destination, k);
    }
  }

  lemma ProperRowPasses(current: seq<Attempt>, next: seq<Attempt>, previous: seq<Attempt>, namespace: string,
                        destination: string, i: nat)
    requires SameRows(current, previous) && Readable(current, namespace, destination) && Unique(next) && i < |next|
    requires Proper(current, previous, next[i], namespace, destination)
    ensures |Merged(current, next, previous)| == |next|
    ensures InScope(Merged(current, next, previous)[i], namespace, destination)
    ensures !ReplacesEnvelope(IdMap(current), Merged(current, next, previous)[i])
  {
    MergedRowUnderLock(current, next, previous, i);
    var id := next[i].id;
    IdMapKeys(current, id);
    if id in IdMap(current) {
      UnseenRow(current, id);
      var k :| 0 <= k < |current| && current[k].id == id;
      SeenRow(current, previous, k);
    }
  }

  /** Proper updates are never refused under the lock. */
  lemma LockedSaveSucceeds(current: seq<Attempt>, next: seq<Attempt>, previous: seq<Attempt>, namespace: string,
                           destination: string)
    requires SameRows(current, previous) && Readable(current, namespace, destination) && Unique(next)
    requires forall i :: 0 <= i < |next| ==> Proper(current, previous, next[i], namespace, destination)
    ensures Save(current, next, Some(previous), namespace, destination).Some?
  {
    NoClashUnderLock(current, next, previous, namespace, destination);
    MergedUnderLock(current, next, previous);
    var merged := Merged(current, next, previous);
    forall i | 0 <= i < |merged|
      ensures InScope(merged[i], namespace, destination) && !ReplacesEnvelope(IdMap(current), merged[i])
    {
      ProperRowPasses(current, next, previous, namespace, destination, i);
    }
  }
}
