/** The console's send queue as tabs run it: every durable change loads, updates
    and saves the document under one storage lock
    (console/src/ConsoleApp.tsx). */
module SendQueue {
  import opened Strings
  import opened Wrappers
  import opened SendAttempts
  import opened SendMerge

  /** What the writer's clock says at its load, at its lease and at its save. No
      relation between readings, or between the clocks of two tabs, is needed. */
  datatype Clock = Clock(load: int, begin: int, save: int)

  datatype Place = Place(namespace: string, destination: string)

  function FindRow(rows: seq<Attempt>, id: string): Option<Attempt> {
    if rows == [] then None else if rows[0].id == id then Some(rows[0]) else FindRow(rows[1..], id)
  }

  lemma {:induction false} FindRowSpec(rows: seq<Attempt>, id: string)
    ensures FindRow(rows, id).Some? ==>
              exists k :: 0 <= k < |rows| && rows[k] == FindRow(rows, id).value && rows[k].id == id
    ensures FindRow(rows, id).None? ==> id !in Ids(rows)
    ensures Unique(rows) ==> forall k :: 0 <= k < |rows| && rows[k].id == id ==> FindRow(rows, id) == Some(rows[k])
  {
    if rows != [] && rows[0].id != id {
      FindRowSpec(rows[1..], id);
      assert forall k :: 1 <= k < |rows| ==> rows[k] == rows[1..][k - 1];
      if FindRow(rows[1..], id).Some? {
        var k :| 0 <= k < |rows[1..]| && rows[1..][k] == FindRow(rows[1..], id).value && rows[1..][k].id == id;
        assert rows[k + 1] == rows[1..][k];
      }
    }
  }

  // ----- Updates of the visible queue -----

  datatype Update =
    | Append(item: Attempt)
    | Import(items: seq<Attempt>)
    | EditText(id: string, text: string)
    | EditContexts(id: string, contexts: seq<string>)
    | Discard(id: string)
    | ClearAll
    | Reorder(drag: string, drop: string, below: bool)
    | Settle(id: string, outcome: Outcome)
    | SettleDetached(id: string, outcome: Outcome, remove: bool)

  function Replaced(rows: seq<Attempt>, id: string, b: Attempt): (r: seq<Attempt>)
    ensures |r| == |rows| && forall i :: 0 <= i < |rows| ==> r[i] == if rows[i].id == id then b else rows[i]
  {
    seq(|rows|, i requires 0 <= i < |rows| => if rows[i].id == id then b else rows[i])
  }

  function Without(rows: seq<Attempt>, id: string): seq<Attempt> {
    if rows == [] then []
    else Without(rows[..|rows| - 1], id) + if rows[|rows| - 1].id == id then [] else [rows[|rows| - 1]]
  }

  /** The items whose id is not taken. */
  function NotTaken(items: seq<Attempt>, ids: seq<string>): seq<Attempt> {
    if items == [] then []
    else NotTaken(items[..|items| - 1], ids) + if items[|items| - 1].id in ids then [] else [items[|items| - 1]]
  }

  function IndexFrom(rows: seq<Attempt>, id: string, draftOnly: bool, i: nat): (k: int)
    requires i <= |rows|
    ensures -1 <= k < |rows|
    ensures k >= 0 ==> rows[k].id == id && (draftOnly ==> rows[k].state == Draft)
    decreases |rows| - i
  {
    if i == |rows| then -1
    else if rows[i].id == id && (draftOnly ==> rows[i].state == Draft) then i
    else IndexFrom(rows, id, draftOnly, i + 1)
  }

  /** `findIndex`. */
  function IndexOf(rows: seq<Attempt>, id: string, draftOnly: bool): (k: int)
    ensures -1 <= k < |rows|
    ensures k >= 0 ==> rows[k].id == id && (draftOnly ==> rows[k].state == Draft)
  {
    IndexFrom(rows, id, draftOnly, 0)
  }

  /** `splice(start, 0, a)`: a negative start counts from the end. */
  function SpliceIn(rows: seq<Attempt>, start: int, a: Attempt): seq<Attempt>
    requires -1 <= start <= |rows|
  {
    var at := if start >= 0 then start else if |rows| == 0 then 0 else |rows| - 1;
    rows[..at] + [a] + rows[at..]
  }

  function WithoutAt(rows: seq<Attempt>, k: nat): (rest: seq<Attempt>)
    requires k < |rows|
    ensures |rest| == |rows| - 1
  {
    rows[..k] + rows[k + 1..]
  }

  /** Row `k` taken out and put back before or behind the row `drop`. */
  function MovedFrom(rows: seq<Attempt>, k: nat, drop: string, below: bool): seq<Attempt>
    requires k < |rows|
  {
    SpliceIn(WithoutAt(rows, k), IndexOf(WithoutAt(rows, k), drop, false) + if below then 1 else 0, rows[k])
  }

  function Moved(rows: seq<Attempt>, drag: string, drop: string, below: bool): seq<Attempt> {
    var k := IndexOf(rows, drag, true);
    if k < 0 || IndexOf(rows, drop, false) < 0 then rows else MovedFrom(rows, k, drop, below)
  }

  /** The queue after an update; none when it throws or gives up before it saves. */
  function Apply(u: Update, rows: seq<Attempt>): Option<seq<Attempt>> {
    match u
    case Append(item) => Some(rows + [item])
    case Import(items) => Some(rows + NotTaken(items, Ids(rows)))
    case EditText(id, text) =>
      var row := FindRow(rows, id);
      if !NonBlank(text) then None
      else if row.Some? && row.value.state == Draft then Some(Replaced(rows, id, row.value.(text := text)))
      else Some(rows)
    case EditContexts(id, contexts) =>
      var row := FindRow(rows, id);
      if row.Some? && row.value.state == Draft then Some(Replaced(rows, id, row.value.(contexts := contexts)))
      else Some(rows)
    case Discard(id) => Some(Without(rows, id))
    case ClearAll => Some([])
    case Reorder(drag, drop, below) => Some(Moved(rows, drag, drop, below))
    case Settle(id, outcome) =>
      var row := FindRow(rows, id);
      if row.None? then Some(rows)
      else
        var b := Finish(row.value, outcome);
        if b.Some? then Some(Replaced(rows, id, b.value)) else None
    case SettleDetached(id, outcome, remove) =>
      var row := FindRow(rows, id);
      if row.None? || row.value.state == Draft || row.value.state == Accepted then None
      else
        var b := Finish(row.value, outcome);
        if b.None? then None
        else if remove && b.value.state == Accepted then Some(Without(rows, id))
        else Some(Replaced(rows, id, b.value))
  }

  /** Every row of the new queue continues a row of the old one, or is an added one. */
  ghost predicate Continues(rows: seq<Attempt>, next: seq<Attempt>, added: seq<Attempt>) {
    forall i :: 0 <= i < |next| ==> Continued(rows, next[i], added)
  }

  ghost predicate Continued(rows: seq<Attempt>, a: Attempt, added: seq<Attempt>) {
    (exists j :: 0 <= j < |rows| && Follows(rows[j], a)) || a in added
  }

  lemma ReplacedContinues(rows: seq<Attempt>, id: string, row: Attempt, b: Attempt)
    requires Unique(rows) && FindRow(rows, id) == Some(row) && Follows(row, b)
    ensures Unique(Replaced(rows, id, b)) && Continues(rows, Replaced(rows, id, b), [])
  {
    FindRowSpec(rows, id);
    forall i | 0 <= i < |rows| ensures Continued(rows, Replaced(rows, id, b)[i], []) {
      assert Follows(rows[i], Replaced(rows, id, b)[i]);
    }
    assert forall i :: 0 <= i < |rows| ==> Replaced(rows, id, b)[i].id == rows[i].id;
  }

  lemma {:induction false} WithoutContinues(rows: seq<Attempt>, id: string)
    requires Unique(rows)
    ensures Unique(Without(rows, id))
    ensures forall a :: a in Without(rows, id) ==> a in rows && a.id != id
    ensures forall a :: a in rows && a.id != id ==> a in Without(rows, id)
  {
    if rows != [] {
      var init := rows[..|rows| - 1];
      WithoutContinues(init, id);
      assert rows == init + [rows[|rows| - 1]];
      assert forall a :: a in init ==> exists k :: 0 <= k < |rows| - 1 && rows[k] == a;
    }
  }

  lemma SubsetContinues(rows: seq<Attempt>, next: seq<Attempt>)
    requires forall a :: a in next ==> a in rows
    ensures Continues(rows, next, [])
  {
    forall i | 0 <= i < |next| ensures Continued(rows, next[i], []) {
      assert next[i] in rows;
      var j :| 0 <= j < |rows| && rows[j] == next[i];
      assert Follows(rows[j], next[i]);
    }
  }

  lemma SplicePermutes(rows: seq<Attempt>, start: int, a: Attempt)
    requires -1 <= start <= |rows|
    ensures multiset(SpliceIn(rows, start, a)) == multiset(rows) + multiset{a}
  {
    var at := if start >= 0 then start else if |rows| == 0 then 0 else |rows| - 1;
    assert rows == rows[..at] + rows[at..];
  }

  lemma RemovePermutes(rows: seq<Attempt>, k: nat)
    requires k < |rows|
    ensures multiset(rows) == multiset(WithoutAt(rows, k)) + multiset{rows[k]}
  {
    assert rows == rows[..k] + [rows[k]] + rows[k + 1..];
  }

  lemma MovedFromPermutes(rows: seq<Attempt>, k: nat, drop: string, below: bool)
    requires k < |rows|
    ensures multiset(MovedFrom(rows, k, drop, below)) == multiset(rows)
  {
    RemovePermutes(rows, k);
    PutBack(rows, WithoutAt(rows, k), IndexOf(WithoutAt(rows, k), drop, false) + if below then 1 else 0, rows[k]);
  }

  lemma PutBack(rows: seq<Attempt>, rest: seq<Attempt>, start: int, a: Attempt)
    requires -1 <= start <= |rest| && multiset(rows) == multiset(rest) + multiset{a}
    ensures multiset(SpliceIn(rest, start, a)) == multiset(rows)
  {
    SplicePermutes(rest, start, a);
  }

  /** A drag moves one row and loses none, also when a row is dropped on itself. */
  lemma MovedPermutes(rows: seq<Attempt>, drag: string, drop: string, below: bool)
    ensures multiset(Moved(rows, drag, drop, below)) == multiset(rows)
  {
    var k := IndexOf(rows, drag, true);
    if k >= 0 { MovedFromPermutes(rows, k, drop, below); }
  }

  lemma UniqueByCount(rows: seq<Attempt>, next: seq<Attempt>)
    requires Unique(rows) && multiset(next) == multiset(rows)
    ensures Unique(next)
  {
    forall i, j | 0 <= i < j < |next| ensures next[i].id != next[j].id {
      assert next[i] in multiset(rows) && next[j] in multiset(rows);
      if next[i].id == next[j].id {
        var k :| 0 <= k < |rows| && rows[k] == next[i];
        assert next[i] == next[j];
        TwiceCounts(next, i, j);
        OnceCounts(rows, next[i]);
      }
    }
  }

  lemma TwiceCounts(rows: seq<Attempt>, i: nat, j: nat)
    requires i < j < |rows| && rows[i] == rows[j]
    ensures multiset(rows)[rows[i]] >= 2
  {
    assert rows == rows[..i] + [rows[i]] + rows[i + 1..];
    assert rows[j] in rows[i + 1..];
  }

  lemma {:induction false} OnceCounts(rows: seq<Attempt>, a: Attempt)
    requires Unique(rows)
    ensures multiset(rows)[a] <= 1
  {
    if rows != [] {
      var init := rows[..|rows| - 1];
      OnceCounts(init, a);
      assert rows == init + [rows[|rows| - 1]];
      assert rows[|rows| - 1] !in init;
    }
  }

  /** The rows an update adds to a queue with these ids. */
  function Added(u: Update, ids: seq<string>): seq<Attempt> {
    if u.Append? then [u.item] else if u.Import? then NotTaken(u.items, ids) else []
  }

  /** A new message has a new id; the rows of an older queue have distinct ones. */
  ghost predicate Addable(u: Update, ids: seq<string>) {
    (u.Append? ==> u.item.id !in ids) && (u.Import? ==> Unique(u.items))
  }

  lemma {:induction false} NotTakenSpec(items: seq<Attempt>, ids: seq<string>)
    ensures forall a :: a in NotTaken(items, ids) <==> a in items && a.id !in ids
    ensures Unique(items) ==> Unique(NotTaken(items, ids))
  {
    if items != [] {
      var init := items[..|items| - 1];
      NotTakenSpec(init, ids);
      assert items == init + [items[|items| - 1]];
    }
  }

  lemma AddedIsNew(u: Update, ids: seq<string>)
    requires Addable(u, ids)
    ensures Unique(Added(u, ids)) && forall a :: a in Added(u, ids) ==> a.id !in ids
  {
    if u.Import? { NotTakenSpec(u.items, ids); }
  }

  lemma AddingContinues(rows: seq<Attempt>, added: seq<Attempt>)
    requires Unique(rows) && Unique(added) && forall a :: a in added ==> a.id !in Ids(rows)
    ensures Unique(rows + added) && Continues(rows, rows + added, added)
  {
    forall i | 0 <= i < |rows|
      ensures Continued(rows, rows[i], added) && forall a :: a in added ==> a.id != rows[i].id
    {
      assert Ids(rows)[i] == rows[i].id;
      assert Follows(rows[i], rows[i]);
    }
  }

  lemma MovedContinues(rows: seq<Attempt>, drag: string, drop: string, below: bool)
    requires Unique(rows)
    ensures Unique(Moved(rows, drag, drop, below)) && Continues(rows, Moved(rows, drag, drop, below), [])
  {
    var next := Moved(rows, drag, drop, below);
    MovedPermutes(rows, drag, drop, below);
    UniqueByCount(rows, next);
    forall a | a in next ensures a in rows { assert a in multiset(next); }
    SubsetContinues(rows, next);
  }

  lemma DiscardContinues(rows: seq<Attempt>, id: string)
    requires Unique(rows)
    ensures Unique(Without(rows, id)) && Continues(rows, Without(rows, id), [])
  {
    WithoutContinues(rows, id);
    SubsetContinues(rows, Without(rows, id));
  }

  /** Every update keeps names distinct and takes nothing back. */
  lemma ApplyContinues(u: Update, rows: seq<Attempt>)
    requires Unique(rows) && Apply(u, rows).Some?
    requires Addable(u, Ids(rows))
    ensures Unique(Apply(u, rows).value) && Continues(rows, Apply(u, rows).value, Added(u, Ids(rows)))
  {
    AddedIsNew(u, Ids(rows));
    match u
    case Append(item) => AddingContinues(rows, [item]);
    case Import(items) => AddingContinues(rows, NotTaken(items, Ids(rows)));
    case EditText(id, text) => EditContinues(u, rows, id);
    case EditContexts(id, contexts) => EditContinues(u, rows, id);
    case Discard(id) => DiscardContinues(rows, id);
    case ClearAll =>
    case Reorder(drag, drop, below) => MovedContinues(rows, drag, drop, below);
    case Settle(id, outcome) => SettleContinues(u, rows, id);
    case SettleDetached(id, outcome, remove) => SettleContinues(u, rows, id);
  }

  lemma EditContinues(u: Update, rows: seq<Attempt>, id: string)
    requires (u.EditText? || u.EditContexts?) && u.id == id
    requires Unique(rows) && Apply(u, rows).Some?
    ensures Unique(Apply(u, rows).value) && Continues(rows, Apply(u, rows).value, [])
  {
    SubsetContinues(rows, rows);
    var row := FindRow(rows, id);
    if row.Some? && row.value.state == Draft {
      ReplacedContinues(rows, id, row.value,
                        if u.EditText? then row.value.(text := u.text) else row.value.(contexts := u.contexts));
    }
  }

  lemma FinishContinues(rows: seq<Attempt>, id: string, row: Attempt, outcome: Outcome)
    requires Unique(rows) && FindRow(rows, id) == Some(row) && Finish(row, outcome).Some?
    ensures var next := Replaced(rows, id, Finish(row, outcome).value);
            Unique(next) && Continues(rows, next, [])
  {
    ReplacedContinues(rows, id, row, Finish(row, outcome).value);
  }

  lemma SettleContinues(u: Update, rows: seq<Attempt>, id: string)
    requires (u.Settle? || u.SettleDetached?) && u.id == id
    requires Unique(rows) && Apply(u, rows).Some?
    ensures Unique(Apply(u, rows).value) && Continues(rows, Apply(u, rows).value, [])
  {
    var row := FindRow(rows, id);
    if row.None? {
      SubsetContinues(rows, rows);
    } else {
      FinishContinues(rows, id, row.value, u.outcome);
      DiscardContinues(rows, id);
    }
  }

  // ----- The critical sections -----

  function Or<T>(a: Option<T>, b: Option<T>): Option<T> {
    if a.Some? then a else b
  }

  /** A loaded row laid over the tab's own copy: a key the loaded row does not have
      keeps the tab's value. A row recovered while loading has all keys it changed,
      the removed lease too. */
  function Overlaid(visible: Option<Attempt>, stored: Attempt, now: int): Attempt {
    var a := Recover(stored, now);
    if visible.None? then a
    else
      var v := visible.value;
      a.(envelope := Or(a.envelope, v.envelope), lease := if a == stored then Or(a.lease, v.lease) else a.lease,
         error := Or(a.error, v.error), failureKind := Or(a.failureKind, v.failureKind),
         accepted := Or(a.accepted, v.accepted))
  }

  /** What an update works on: the stored rows over the tab's visible ones. A
      detached settlement has no view. */
  function Seen(rows: seq<Attempt>, u: Update, visible: seq<Attempt>, now: int): (seen: seq<Attempt>)
    ensures |seen| == |rows|
  {
    if u.SettleDetached? then Recovered(rows, now)
    else seq(|rows|, i requires 0 <= i < |rows| => Overlaid(FindRow(visible, rows[i].id), rows[i], now))
  }

  function Commit(rows: seq<Attempt>, u: Update, visible: seq<Attempt>, at: Place, t: Clock): Option<seq<Attempt>> {
    var seen := Seen(rows, u, visible, t.load);
    var next := Apply(u, seen);
    if next.None? then None else Save(Recovered(rows, t.save), next.value, Some(seen), at.namespace, at.destination)
  }

  /** What else a dispatch asks for: a live view of the same scope, a console that is
      not read-only, an open chat panel; and for the resend of an unknown attempt a
      gateway that remembers idempotency keys. */
  datatype Gates = Gates(live: bool, writable: bool, panel: bool, durable: bool)

  predicate MayDispatch(a: Attempt, resend: bool, gates: Gates) {
    && gates.live && gates.writable && gates.panel
    && (a.state == Draft || (resend && (a.state == Rejected || (a.state == Unknown && gates.durable))))
  }

  function Begun(seen: seq<Attempt>, id: string, owner: string, now: int, mode: Mode, resend: bool,
                 gates: Gates): Option<Attempt> {
    var row := FindRow(seen, id);
    if row.None? || !MayDispatch(row.value, resend, gates) then None
    else Begin(row.value, owner, now, mode, false, resend)
  }

  /** Freezes an attempt: begins it and saves it before anything is sent. */
  function Freeze(rows: seq<Attempt>, at: Place, id: string, owner: string, mode: Mode, resend: bool, gates: Gates,
                  t: Clock): Option<(Attempt, seq<Attempt>)> {
    var seen := Recovered(rows, t.load);
    var b := Begun(seen, id, owner, t.begin, mode, resend, gates);
    if b.None? then None
    else
      var saved := Save(Recovered(rows, t.save), Replaced(seen, id, b.value), Some(seen), at.namespace, at.destination);
      if saved.None? then None else Some((b.value, saved.value))
  }

  lemma RecoveredIsReadable(rows: seq<Attempt>, at: Place, now: int)
    requires Readable(rows, at.namespace, at.destination)
    ensures Readable(Recovered(rows, now), at.namespace, at.destination)
    ensures forall i :: 0 <= i < |rows| ==> Follows(rows[i], Recovered(rows, now)[i])
  {
    forall i | 0 <= i < |rows|
      ensures InScope(Recovered(rows, now)[i], at.namespace, at.destination)
              && Follows(rows[i], Recovered(rows, now)[i])
    {
      RecoverIsSafe(rows[i], now, now);
    }
  }

  /** What a seen row has in common with the stored one. */
  predicate Shows(stored: Attempt, seen: Attempt) {
    && seen.id == stored.id && seen.key == stored.key
    && (stored.envelope.Some? ==> seen.envelope == stored.envelope)
    && (seen.state == Accepted <==> stored.state == Accepted)
  }

  ghost predicate AllShow(rows: seq<Attempt>, seen: seq<Attempt>) {
    |seen| == |rows| && forall i :: 0 <= i < |rows| ==> Shows(rows[i], seen[i])
  }

  lemma SeenShows(rows: seq<Attempt>, u: Update, visible: seq<Attempt>, now: int)
    ensures AllShow(rows, Seen(rows, u, visible, now))
  {}

  lemma RecoveredShows(rows: seq<Attempt>, now: int)
    ensures AllShow(rows, Recovered(rows, now))
  {}

  lemma ShownIds(rows: seq<Attempt>, seen: seq<Attempt>)
    requires AllShow(rows, seen)
    ensures Ids(seen) == Ids(rows) && (Unique(rows) ==> Unique(seen))
  {
    assert forall i :: 0 <= i < |rows| ==> seen[i].id == rows[i].id;
  }

  /** A save under the lock continues the stored queue, whatever else the caller saw. */
  lemma WrittenContinues(rows: seq<Attempt>, seen: seq<Attempt>, next: seq<Attempt>, save: int, added: seq<Attempt>,
                         m: seq<Attempt>)
    requires Unique(rows) && AllShow(rows, seen) && Continues(seen, next, added)
    requires forall a :: a in added ==> a.id !in Ids(rows)
    requires SameRows(Recovered(rows, save), seen) && Written(Recovered(rows, save), next, seen, m)
    ensures Continues(rows, m, added) && Ids(m) == Ids(next)
  {
    forall i | 0 <= i < |m| ensures m[i].id == next[i].id && Continued(rows, m[i], added) {
      assert WrittenRow(Recovered(rows, save), seen, next[i], m[i]);
      SavedRowContinues(rows, seen, next[i], m[i], save, added);
    }
  }

  lemma SavedRowContinues(rows: seq<Attempt>, seen: seq<Attempt>, a: Attempt, b: Attempt, save: int,
                          added: seq<Attempt>)
    requires Unique(rows) && AllShow(rows, seen) && Continued(seen, a, added)
    requires forall a :: a in added ==> a.id !in Ids(rows)
    requires forall k :: 0 <= k < |rows| && rows[k].id == a.id ==> b == Pick(Recover(rows[k], save), a, seen[k])
    requires a.id !in Ids(Recovered(rows, save)) ==> b == a
    ensures b.id == a.id && Continued(rows, b, added)
  {
    if j :| 0 <= j < |rows| && Follows(seen[j], a) {
      assert Shows(rows[j], seen[j]);
      PickedFollows(rows[j], seen[j], a, save);
      assert Follows(rows[j], b);
    } else {
      assert Ids(rows) == Ids(Recovered(rows, save));
    }
  }

  lemma PickedFollows(stored: Attempt, seen: Attempt, a: Attempt, save: int)
    requires Shows(stored, seen) && Follows(seen, a)
    ensures Follows(stored, Pick(Recover(stored, save), a, seen))
  {}

  lemma SectionContinues(rows: seq<Attempt>, seen: seq<Attempt>, next: seq<Attempt>, at: Place, save: int,
                         added: seq<Attempt>, m: seq<Attempt>)
    requires Readable(rows, at.namespace, at.destination) && Unique(next) && AllShow(rows, seen)
    requires Continues(seen, next, added) && forall a :: a in added ==> a.id !in Ids(rows)
    requires Save(Recovered(rows, save), next, Some(seen), at.namespace, at.destination) == Some(m)
    ensures Readable(m, at.namespace, at.destination) && Continues(rows, m, added) && Ids(m) == Ids(next)
    ensures SameRows(Recovered(rows, save), seen) && Written(Recovered(rows, save), next, seen, m)
  {
    RecoveredIsReadable(rows, at, save);
    RecoveredShows(rows, save);
    assert forall i :: 0 <= i < |rows| ==> Shows(rows[i], seen[i]) && Shows(rows[i], Recovered(rows, save)[i]);
    LockedSaveIsUpdate(Recovered(rows, save), next, seen, at.namespace, at.destination, m);
    WrittenContinues(rows, seen, next, save, added, m);
  }

  lemma SeenRows(rows: seq<Attempt>, at: Place, now: int)
    requires Readable(rows, at.namespace, at.destination)
    ensures var seen := Recovered(rows, now);
            Unique(seen) && Ids(seen) == Ids(rows) && forall i :: 0 <= i < |seen| ==> Valid(seen[i])
  {
    RecoveredIsReadable(rows, at, now);
    var seen := Recovered(rows, now);
    forall i | 0 <= i < |seen| ensures Valid(seen[i]) { assert InScope(seen[i], at.namespace, at.destination); }
  }

  /** A committed update continues the stored queue and leaves it readable, whatever
      the tab's own rows said and whatever the clocks say. */
  lemma CommitContinues(rows: seq<Attempt>, u: Update, visible: seq<Attempt>, at: Place, t: Clock)
    requires Readable(rows, at.namespace, at.destination) && Commit(rows, u, visible, at, t).Some?
    requires Addable(u, Ids(rows))
    ensures Readable(Commit(rows, u, visible, at, t).value, at.namespace, at.destination)
    ensures Continues(rows, Commit(rows, u, visible, at, t).value, Added(u, Ids(rows)))
  {
    var seen := Seen(rows, u, visible, t.load);
    SeenShows(rows, u, visible, t.load);
    ShownIds(rows, seen);
    AddedIsNew(u, Ids(rows));
    ApplyContinues(u, seen);
    SectionContinues(rows, seen, Apply(u, seen).value, at, t.save, Added(u, Ids(rows)),
                     Commit(rows, u, visible, at, t).value);
  }

  // ----- What a stale view can do -----

  /** A well-formed overlaid row is the stored one up to its error text and failure kind. */
  lemma OverlayLeaks(visible: Option<Attempt>, stored: Attempt, now: int)
    requires Valid(stored) && Valid(Overlaid(visible, stored, now))
    ensures var b := Overlaid(visible, stored, now);
            b == Recover(stored, now).(error := b.error, failureKind := b.failureKind)
  {}

  /** What an update makes of a row it was shown. */
  ghost predicate UpdatedRow(u: Update, seen: Attempt, a: Attempt) {
    || a == seen
    || (u.EditText? && u.id == seen.id && seen.state == Draft && a == seen.(text := u.text))
    || (u.EditContexts? && u.id == seen.id && seen.state == Draft && a == seen.(contexts := u.contexts))
    || ((u.Settle? || u.SettleDetached?) && u.id == seen.id && Finish(seen, u.outcome) == Some(a))
  }

  lemma SameIdSameRow(rows: seq<Attempt>, a: Attempt, k: nat)
    requires Unique(rows) && a in rows && k < |rows| && a.id == rows[k].id
    ensures a == rows[k]
  {}

  lemma ApplyRow(u: Update, seen: seq<Attempt>, i: nat, k: nat)
    requires Unique(seen) && Apply(u, seen).Some? && i < |Apply(u, seen).value| && k < |seen|
    requires Apply(u, seen).value[i].id == seen[k].id && Addable(u, Ids(seen))
    ensures UpdatedRow(u, seen[k], Apply(u, seen).value[i])
  {
    var next := Apply(u, seen).value;
    if u.Append? || u.Import? {
      AddedIsNew(u, Ids(seen));
      assert next == seen + Added(u, Ids(seen)) && Ids(seen)[k] == seen[k].id;
      assert next[i] in next;
      SameIdSameRow(seen, next[i], k);
    } else if u.Discard? {
      WithoutContinues(seen, u.id);
      SameIdSameRow(seen, next[i], k);
    } else if u.Reorder? {
      MovedPermutes(seen, u.drag, u.drop, u.below);
      assert next[i] in multiset(next);
      SameIdSameRow(seen, next[i], k);
    } else if u.EditText? || u.EditContexts? {
      EditedRow(u, seen, i, k);
    } else if u.Settle? || u.SettleDetached? {
      SettledRow(u, seen, i, k);
    }
  }

  lemma ReplacedRow(seen: seq<Attempt>, id: string, b: Attempt, i: nat, k: nat)
    requires Unique(seen) && FindRow(seen, id).Some? && b.id == id && i < |seen| && k < |seen|
    requires Replaced(seen, id, b)[i].id == seen[k].id
    ensures Replaced(seen, id, b)[i] == seen[k] || (FindRow(seen, id) == Some(seen[k]) && Replaced(seen, id, b)[i] == b)
  {
    FindRowSpec(seen, id);
    if Replaced(seen, id, b)[i] in seen { SameIdSameRow(seen, Replaced(seen, id, b)[i], k); }
  }

  lemma EditedRow(u: Update, seen: seq<Attempt>, i: nat, k: nat)
    requires Unique(seen) && Apply(u, seen).Some? && i < |Apply(u, seen).value| && k < |seen|
    requires u.EditText? || u.EditContexts?
    requires Apply(u, seen).value[i].id == seen[k].id
    ensures UpdatedRow(u, seen[k], Apply(u, seen).value[i])
  {
    FindRowSpec(seen, u.id);
    var row := FindRow(seen, u.id);
    if row.Some? && row.value.state == Draft {
      ReplacedRow(seen, u.id,
                  if u.EditText? then row.value.(text := u.text) else row.value.(contexts := u.contexts), i, k);
    } else {
      SameIdSameRow(seen, seen[i], k);
    }
  }

  lemma SettledRow(u: Update, seen: seq<Attempt>, i: nat, k: nat)
    requires Unique(seen) && Apply(u, seen).Some? && i < |Apply(u, seen).value| && k < |seen|
    requires u.Settle? || u.SettleDetached?
    requires Apply(u, seen).value[i].id == seen[k].id
    ensures UpdatedRow(u, seen[k], Apply(u, seen).value[i])
  {
    FindRowSpec(seen, u.id);
    var row := FindRow(seen, u.id);
    if row.None? {
      SameIdSameRow(seen, seen[i], k);
    } else {
      var b := Finish(row.value, u.outcome).value;
      if u.SettleDetached? && u.remove && b.state == Accepted {
        WithoutContinues(seen, u.id);
        SameIdSameRow(seen, Without(seen, u.id)[i], k);
      } else {
        ReplacedRow(seen, u.id, b, i, k);
      }
    }
  }

  /** The error line of a row as a tab sees it. */
  function ShownError(visible: seq<Attempt>, row: Attempt): Option<Note> {
    var v := FindRow(visible, row.id);
    if v.None? then row.error else Or(row.error, v.value.error)
  }

  /** All that a commit can make of a stored row, whatever the tab showed: the row
      itself, perhaps recovered; an edited draft, with the error line the tab
      showed; or the outcome recorded on the stored row. So no lease, envelope,
      receipt or failure kind of a tab's own copy is ever stored. */
  ghost predicate StoredFrom(row: Attempt, u: Update, visible: seq<Attempt>, t: Clock, b: Attempt) {
    || b == Recover(row, t.save)
    || (u.EditText? && u.id == row.id && row.state == Draft
        && b == row.(text := u.text, error := ShownError(visible, row)))
    || (u.EditContexts? && u.id == row.id && row.state == Draft
        && b == row.(contexts := u.contexts, error := ShownError(visible, row)))
    || ((u.Settle? || u.SettleDetached?) && u.id == row.id && Finish(Recover(row, t.load), u.outcome) == Some(b))
  }

  lemma EditedFromStored(row: Attempt, visible: Option<Attempt>, load: int, a: Attempt)
    requires Valid(row) && Valid(a) && Overlaid(visible, row, load).state == Draft
    requires var b := Overlaid(visible, row, load); a == b.(text := a.text, contexts := a.contexts)
    ensures row.state == Draft
    ensures a == row.(text := a.text, contexts := a.contexts, error := Overlaid(visible, row, load).error)
  {}

  lemma SettledFromStored(row: Attempt, visible: Option<Attempt>, load: int, outcome: Outcome)
    requires Valid(row) && Finish(Overlaid(visible, row, load), outcome).Some? && row.state != Accepted
    ensures Finish(Recover(row, load), outcome) == Finish(Overlaid(visible, row, load), outcome)
  {
    OverlayLeaks(visible, row, load);
    RecoverIsSafe(row, load, load);
  }

  lemma EditIsStoredFrom(row: Attempt, u: Update, visible: seq<Attempt>, t: Clock, seen: Attempt, b: Attempt)
    requires Valid(row) && Valid(b) && (u.EditText? || u.EditContexts?) && UpdatedRow(u, seen, b) && b != seen
    requires seen == Overlaid(FindRow(visible, row.id), row, t.load)
    ensures StoredFrom(row, u, visible, t, b)
  {
    EditedFromStored(row, FindRow(visible, row.id), t.load, b);
  }

  lemma SettlementIsStoredFrom(row: Attempt, u: Update, visible: seq<Attempt>, t: Clock, v: Option<Attempt>,
                               seen: Attempt, b: Attempt)
    requires Valid(row) && row.state != Accepted && (u.Settle? || u.SettleDetached?) && UpdatedRow(u, seen, b)
             && b != seen
    requires seen == Overlaid(v, row, t.load)
    ensures StoredFrom(row, u, visible, t, b)
  {
    assert Finish(Recover(row, t.load), u.outcome) == Some(b) by { SettledFromStored(row, v, t.load, u.outcome); }
  }

  lemma PickedIsStored(row: Attempt, save: int, seen: Attempt, a: Attempt)
    ensures var b := Pick(Recover(row, save), a, seen);
            b == Recover(row, save) || (b == a && a != seen && row.state != Accepted)
  {}

  lemma PickedIsStoredFrom(row: Attempt, u: Update, visible: seq<Attempt>, t: Clock, seen: Attempt, b: Attempt)
    requires Valid(row) && Valid(b) && UpdatedRow(u, seen, b) && b != seen && row.state != Accepted
    requires seen == if u.SettleDetached? then Recover(row, t.load) else Overlaid(FindRow(visible, row.id), row, t.load)
    ensures StoredFrom(row, u, visible, t, b)
  {
    if u.EditText? || u.EditContexts? {
      EditIsStoredFrom(row, u, visible, t, seen, b);
    } else {
      SettlementIsStoredFrom(row, u, visible, t, if u.SettleDetached? then None else FindRow(visible, row.id), seen, b);
    }
  }

  /** At the store, for every visible queue: each row a commit leaves is what
      `StoredFrom` says of the row that was there. */
  lemma CommitStores(rows: seq<Attempt>, u: Update, visible: seq<Attempt>, at: Place, t: Clock, m: seq<Attempt>, i: nat,
                     k: nat)
    requires Readable(rows, at.namespace, at.destination) && Commit(rows, u, visible, at, t) == Some(m)
    requires Addable(u, Ids(rows))
    requires i < |m| && k < |rows| && m[i].id == rows[k].id
    ensures StoredFrom(rows[k], u, visible, t, m[i])
  {
    var seen := Seen(rows, u, visible, t.load);
    var next := Apply(u, seen).value;
    SeenShows(rows, u, visible, t.load);
    ShownIds(rows, seen);
    AddedIsNew(u, Ids(rows));
    ApplyContinues(u, seen);
    SectionContinues(rows, seen, next, at, t.save, Added(u, Ids(rows)), m);
    assert Ids(m)[i] == Ids(next)[i];
    assert Shows(rows[k], seen[k]);
    ApplyRow(u, seen, i, k);
    assert WrittenRow(Recovered(rows, t.save), seen, next[i], m[i]);
    RecoveredShows(rows, t.save);
    assert Shows(rows[k], Recovered(rows, t.save)[k]);
    assert InScope(m[i], at.namespace, at.destination) && InScope(rows[k], at.namespace, at.destination);
    PickedIsStored(rows[k], t.save, seen[k], next[i]);
    if m[i] != Recover(rows[k], t.save) {
      PickedIsStoredFrom(rows[k], u, visible, t, seen[k], m[i]);
    }
  }

  /** Exactly when the tab's own copy of a row keeps a settlement from being
      recorded: it shows the row accepted or in flight though it is not, or it has a
      failure of a row that is in flight or accepted. */
  lemma StaleViewBlocksIff(v: Attempt, stored: Attempt, now: int, outcome: Outcome)
    requires Valid(v) && Valid(stored) && stored.state != Draft
    requires outcome.Failed? || ProvesAcceptance(outcome.receipt)
    ensures var state := Recover(stored, now).state;
            Finish(Overlaid(Some(v), stored, now), outcome).None? <==>
            || (v.state == Accepted && stored.state != Accepted)
            || (v.state == Attempting && stored.state != Attempting)
            || (v.failureKind.Some? && (state == Attempting || state == Accepted))
  {}

  /** A tab that still shows a settled row in flight cannot record the acceptance
      that a check found; a tab without that copy can. */
  lemma StaleRowBlocks(row: Attempt, stale: Attempt, receipt: Receipt, now: int)
    requires Valid(row) && Valid(stale) && stale.id == row.id && row.state == Unknown && stale.state == Attempting
    requires ProvesAcceptance(receipt)
    ensures var u := Settle(row.id, Delivered(receipt));
            Apply(u, Seen([row], u, [stale], now)).None? && Apply(u, Seen([row], u, [], now)).Some?
  {
    var u := Settle(row.id, Delivered(receipt));
    StaleViewBlocksIff(stale, row, now, u.outcome);
    assert Seen([row], u, [stale], now)[0] == Overlaid(Some(stale), row, now);
    assert Seen([row], u, [], now)[0] == row;
  }

  const UNANSWERED := Attempt("m1", "ns", "agent", "console:p", "k1", "hello", [], 0, Unknown,
                              Some(Envelope("agent", Plain("hello"), "console:p", "k1", Queue)), None, None, None, None)

  /** Such a pair of rows: a message whose answer never came, here and in a tab that
      still waits for it. */
  lemma StaleLeaseBlocks()
    ensures var stale := UNANSWERED.(state := Attempting, lease := Some(Lease("tab", 15000)));
            var u := Settle("m1", Delivered(Receipt("i1", None)));
            && Valid(UNANSWERED) && Valid(stale)
            && Apply(u, Seen([UNANSWERED], u, [stale], 20000)).None? && Apply(u, Seen([UNANSWERED], u, [], 20000)).Some?
  {
    SampleTexts();
    StaleRowBlocks(UNANSWERED, UNANSWERED.(state := Attempting, lease := Some(Lease("tab", 15000))),
                   Receipt("i1", None), 20000);
  }

  lemma SampleTexts()
    ensures NonBlank("m1") && NonBlank("ns") && NonBlank("agent") && NonBlank("console:p") && NonBlank("k1")
            && NonBlank("hello")
    ensures NonBlank("tab") && NonBlank("i1")
  {
    TrimFixed("m1");
    TrimFixed("ns");
    TrimFixed("agent");
    TrimFixed("console:p");
    TrimFixed("k1");
    TrimFixed("hello");
    TrimFixed("tab");
    TrimFixed("i1");
  }

  lemma BegunSpec(seen: seq<Attempt>, id: string, owner: string, now: int, mode: Mode, resend: bool, gates: Gates,
                  k: nat)
    requires Unique(seen) && k < |seen| && seen[k].id == id && Valid(seen[k])
    ensures Begun(seen, id, owner, now, mode, resend, gates).Some? <==>
              && NonBlank(owner) && MayDispatch(seen[k], resend, gates)
              && (seen[k].envelope.Some? ==> seen[k].envelope.value.mode == mode)
    ensures Begun(seen, id, owner, now, mode, resend, gates).Some? ==>
              var b := Begun(seen, id, owner, now, mode, resend, gates).value;
              && Valid(b) && Follows(seen[k], b) && b.state == Attempting
              && b.scope == seen[k].scope && b.destination == seen[k].destination
  {
    FindRowSpec(seen, id);
    BeginFreezes(seen[k], owner, now, mode, false, resend);
  }

  lemma BegunAt(rows: seq<Attempt>, at: Place, owner: string, now: int, load: int, mode: Mode, resend: bool,
                gates: Gates, k: nat, r: Option<Attempt>)
    requires Readable(rows, at.namespace, at.destination) && k < |rows|
    requires r == Begun(Recovered(rows, load), rows[k].id, owner, now, mode, resend, gates)
    ensures r.Some? <==>
              && NonBlank(owner) && MayDispatch(Recover(rows[k], load), resend, gates)
              && (rows[k].envelope.Some? ==> rows[k].envelope.value.mode == mode)
    ensures r.Some? ==> InScope(r.value, at.namespace, at.destination)
    ensures r.Some? ==> Follows(Recover(rows[k], load), r.value) && r.value.state == Attempting
  {
    SeenRows(rows, at, load);
    BegunSpec(Recovered(rows, load), rows[k].id, owner, now, mode, resend, gates, k);
    assert InScope(rows[k], at.namespace, at.destination);
  }

  /** Exactly which stored rows can be frozen, in a live, writable view with a panel:
      a draft; on an explicit resend also a rejected row, and an unknown one, or one
      whose lease ran out on the writer's clock, if the gateway deduplicates. A
      frozen row goes out again only in its first handling mode. */
  lemma FreezeSucceedsIff(rows: seq<Attempt>, at: Place, id: string, owner: string, mode: Mode, resend: bool,
                          gates: Gates, t: Clock, k: nat)
    requires Readable(rows, at.namespace, at.destination) && k < |rows| && rows[k].id == id
    ensures Freeze(rows, at, id, owner, mode, resend, gates, t).Some? <==>
              && NonBlank(owner) && MayDispatch(Recover(rows[k], t.load), resend, gates)
              && (rows[k].envelope.Some? ==> rows[k].envelope.value.mode == mode)
  {
    BegunSaveSucceeds(rows, at, owner, mode, resend, gates, t, k,
                      Begun(Recovered(rows, t.load), id, owner, t.begin, mode, resend, gates));
  }

  lemma BegunSaveSucceeds(rows: seq<Attempt>, at: Place, owner: string, mode: Mode, resend: bool, gates: Gates,
                          t: Clock, k: nat, r: Option<Attempt>)
    requires Readable(rows, at.namespace, at.destination) && k < |rows|
    requires r == Begun(Recovered(rows, t.load), rows[k].id, owner, t.begin, mode, resend, gates)
    ensures r.Some? <==>
              && NonBlank(owner) && MayDispatch(Recover(rows[k], t.load), resend, gates)
              && (rows[k].envelope.Some? ==> rows[k].envelope.value.mode == mode)
    ensures r.Some? ==>
              Save(Recovered(rows, t.save), Replaced(Recovered(rows, t.load), rows[k].id, r.value),
                   Some(Recovered(rows, t.load)), at.namespace, at.destination).Some?
  {
    BegunAt(rows, at, owner, t.begin, t.load, mode, resend, gates, k, r);
    if r.Some? { FrozenSaveSucceeds(rows, at, t, k, r.value); }
  }

  lemma FrozenSaveSucceeds(rows: seq<Attempt>, at: Place, t: Clock, k: nat, b: Attempt)
    requires Readable(rows, at.namespace, at.destination) && k < |rows|
    requires InScope(b, at.namespace, at.destination) && Follows(Recover(rows[k], t.load), b)
    ensures Save(Recovered(rows, t.save), Replaced(Recovered(rows, t.load), rows[k].id, b),
                 Some(Recovered(rows, t.load)), at.namespace, at.destination).Some?
  {
    ReplacedAt(rows, at, t.load, k, b);
    ReplacedIsProper(rows, at, t, k, b);
    LockedSaveSucceeds(Recovered(rows, t.save), Replaced(Recovered(rows, t.load), rows[k].id, b),
                       Recovered(rows, t.load), at.namespace, at.destination);
  }

  lemma ReplacedIsProper(rows: seq<Attempt>, at: Place, t: Clock, k: nat, b: Attempt)
    requires Readable(rows, at.namespace, at.destination) && k < |rows|
    requires InScope(b, at.namespace, at.destination) && Follows(Recover(rows[k], t.load), b)
    ensures var current, seen := Recovered(rows, t.save), Recovered(rows, t.load);
            && Readable(current, at.namespace, at.destination) && SameRows(current, seen)
            && forall i :: 0 <= i < |rows| ==>
                 Proper(current, seen, Replaced(seen, rows[k].id, b)[i], at.namespace, at.destination)
  {
    var current, seen := Recovered(rows, t.save), Recovered(rows, t.load);
    RecoveredIsReadable(rows, at, t.save);
    RecoveredShows(rows, t.load);
    forall i | 0 <= i < |rows| ensures current[i].id == seen[i].id == rows[i].id {
      assert Shows(rows[i], seen[i]) && Follows(rows[i], current[i]);
    }
    forall i | 0 <= i < |rows|
      ensures Proper(current, seen, Replaced(seen, rows[k].id, b)[i], at.namespace, at.destination)
    {
      KeepsEnvelope(rows[i], t.load, t.save, b);
      ProperAt(current, seen, Replaced(seen, rows[k].id, b)[i], at.namespace, at.destination, i);
    }
  }

  lemma KeepsEnvelope(row: Attempt, load: int, save: int, b: Attempt)
    ensures Follows(Recover(row, load), b) && Recover(row, save).envelope.Some? ==>
            b.envelope == Recover(row, save).envelope
  {}

  /** What is handed to the wire is what was saved: after a freeze the store holds
      that very attempt, in flight, and the other rows go on as they were. */
  lemma FreezeSavesFrozenForm(rows: seq<Attempt>, at: Place, id: string, owner: string, mode: Mode, resend: bool,
                              gates: Gates, t: Clock, b: Attempt, m: seq<Attempt>)
    requires Readable(rows, at.namespace, at.destination)
             && Freeze(rows, at, id, owner, mode, resend, gates, t) == Some((b, m))
    ensures b in m && b.id == id && b.state == Attempting && Valid(b)
    ensures Readable(m, at.namespace, at.destination) && Continues(rows, m, []) && Ids(m) == Ids(rows)
    ensures exists k :: 0 <= k < |rows| && rows[k].id == id && Follows(rows[k], b)
                        && MayDispatch(Recover(rows[k], t.load), resend, gates)
  {
    var k := BegunRow(rows, at, id, owner, t, mode, resend, gates, b);
    FreezeWritesAt(rows, at, resend, gates, t, k, b, m);
  }

  lemma BegunRow(rows: seq<Attempt>, at: Place, id: string, owner: string, t: Clock, mode: Mode, resend: bool,
                 gates: Gates, b: Attempt)
    returns (k: nat)
    requires Readable(rows, at.namespace, at.destination)
    requires Begun(Recovered(rows, t.load), id, owner, t.begin, mode, resend, gates) == Some(b)
    ensures k < |rows| && rows[k].id == id && Follows(Recover(rows[k], t.load), b)
            && MayDispatch(Recover(rows[k], t.load), resend, gates)
    ensures b.state == Attempting && Valid(b) && b.id == id
  {
    var seen := Recovered(rows, t.load);
    FindRowSpec(seen, id);
    k :| 0 <= k < |seen| && seen[k] == FindRow(seen, id).value && seen[k].id == id;
    BegunAt(rows, at, owner, t.begin, t.load, mode, resend, gates, k, Some(b));
  }

  lemma ReplacedAt(rows: seq<Attempt>, at: Place, load: int, k: nat, b: Attempt)
    requires Readable(rows, at.namespace, at.destination) && k < |rows| && Follows(Recover(rows[k], load), b)
    ensures var next := Replaced(Recovered(rows, load), rows[k].id, b);
            && next[k] == b && Ids(next) == Ids(rows) && Unique(next)
            && Continues(Recovered(rows, load), next, []) && Follows(rows[k], Recover(rows[k], load))
  {
    var seen := Recovered(rows, load);
    RecoveredShows(rows, load);
    ShownIds(rows, seen);
    assert Shows(rows[k], seen[k]);
    ReplacedInSeen(seen, k, b);
  }

  lemma ReplacedInSeen(seen: seq<Attempt>, k: nat, b: Attempt)
    requires Unique(seen) && k < |seen| && Follows(seen[k], b)
    ensures var next := Replaced(seen, seen[k].id, b);
            next[k] == b && Ids(next) == Ids(seen) && Unique(next) && Continues(seen, next, [])
  {
    FindRowSpec(seen, seen[k].id);
    ReplacedContinues(seen, seen[k].id, seen[k], b);
  }

  lemma FreezeWritesAt(rows: seq<Attempt>, at: Place, resend: bool, gates: Gates, t: Clock, k: nat, b: Attempt,
                       m: seq<Attempt>)
    requires Readable(rows, at.namespace, at.destination) && k < |rows| && b.state == Attempting
    requires Follows(Recover(rows[k], t.load), b) && MayDispatch(Recover(rows[k], t.load), resend, gates)
    requires Save(Recovered(rows, t.save), Replaced(Recovered(rows, t.load), rows[k].id, b),
                  Some(Recovered(rows, t.load)), at.namespace, at.destination) == Some(m)
    ensures Readable(m, at.namespace, at.destination)
    ensures b in m && Continues(rows, m, []) && Ids(m) == Ids(rows) && Follows(rows[k], b)
  {
    ReplacedAt(rows, at, t.load, k, b);
    var seen := Recovered(rows, t.load);
    var next := Replaced(seen, rows[k].id, b);
    RecoveredShows(rows, t.load);
    SectionContinues(rows, seen, next, at, t.save, [], m);
    FollowsIsTransitive(rows[k], Recover(rows[k], t.load), b);
    FrozenRowIsWritten(rows[k], b, resend, gates, t);
    assert WrittenRow(Recovered(rows, t.save), seen, next[k], m[k]);
  }

  lemma FrozenRowIsWritten(row: Attempt, b: Attempt, resend: bool, gates: Gates, t: Clock)
    requires MayDispatch(Recover(row, t.load), resend, gates) && b.state == Attempting
    ensures Pick(Recover(row, t.save), b, Recover(row, t.load)) == b
  {}

  // ----- The stored document -----

  function RowsOf(doc: Document): seq<Attempt> {
    if doc.Saved? then doc.rows else []
  }

  lemma LoadedRows(doc: Document, at: Place, now: int)
    requires Load(doc, at.namespace, at.destination, now).Some?
    ensures Load(doc, at.namespace, at.destination, now).value == Recovered(RowsOf(doc), now)
  {}

  /** One saved queue. Each method is the body of one lock section. */
  class Store {
    var doc: Document

    constructor ()
      ensures doc == Missing
    {
      doc := Missing;
    }

    /** A failed section leaves the document untouched. `visible` is the tab's own
        copy of the queue. */
    method Update(u: Update, visible: seq<Attempt>, at: Place, t: Clock) returns (ok: bool)
      modifies this
      ensures ok <==> Load(old(doc), at.namespace, at.destination, t.load).Some?
                      && Commit(RowsOf(old(doc)), u, visible, at, t).Some?
      ensures ok ==> doc == Saved(Commit(RowsOf(old(doc)), u, visible, at, t).value)
      ensures !ok ==> doc == old(doc)
    {
      var loaded := LoadAttempts(doc, at.namespace, at.destination, t.load);
      if loaded.None? { return false; }
      var seen := Seen(RowsOf(doc), u, visible, t.load);
      var next := Apply(u, seen);
      if next.None? { return false; }
      ok := Write(next.value, seen, at, t.save);
    }

    /** The attempt to submit, once it is saved. */
    method FreezeAttempt(id: string, owner: string, mode: Mode, resend: bool, gates: Gates, at: Place, t: Clock)
      returns (b: Option<Attempt>)
      modifies this
      ensures b.Some? <==> Load(old(doc), at.namespace, at.destination, t.load).Some?
                           && Freeze(RowsOf(old(doc)), at, id, owner, mode, resend, gates, t).Some?
      ensures b.Some? ==>
                && doc.Saved?
                && Freeze(RowsOf(old(doc)), at, id, owner, mode, resend, gates, t) == Some((b.value, RowsOf(doc)))
      ensures b.None? ==> doc == old(doc)
    {
      var seen := LoadAttempts(doc, at.namespace, at.destination, t.load);
      if seen.None? { return None; }
      LoadedRows(doc, at, t.load);
      b := Begun(seen.value, id, owner, t.begin, mode, resend, gates);
      if b.Some? {
        var ok := Write(Replaced(seen.value, id, b.value), seen.value, at, t.save);
        if !ok { b := None; }
      }
    }

    method Write(next: seq<Attempt>, seen: seq<Attempt>, at: Place, now: int) returns (ok: bool)
      requires Load(doc, at.namespace, at.destination, now).Some?
      modifies this
      ensures ok <==> Save(Recovered(RowsOf(old(doc)), now), next, Some(seen), at.namespace, at.destination).Some?
      ensures ok ==> doc == Saved(Save(Recovered(RowsOf(old(doc)), now), next, Some(seen), at.namespace,
                                       at.destination).value)
      ensures !ok ==> doc == old(doc)
    {
      var current := LoadAttempts(doc, at.namespace, at.destination, now);
      LoadedRows(doc, at, now);
      var saved := SaveRows(current.value, next, Some(seen), at.namespace, at.destination);
      ok := saved.Some?;
      if ok { doc := Saved(saved.value); }
    }
  }
}
