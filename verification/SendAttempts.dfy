/** One queued console message and the saved queue it lives in: the life of a
    send attempt (packages/console-core/src/send-attempt.ts) and the three-way
    merge that every save goes through (console/src/lib/send-attempt-storage.ts).
    `None` stands for a thrown error. */
module SendAttempts {
  import opened Strings
  import opened Wrappers

  datatype State = Draft | Attempting | Accepted | Rejected | Unknown

  datatype Mode = Queue | Steer

  datatype Content = Plain(text: string) | Quoted(text: string, contexts: seq<string>)

  datatype Envelope = Envelope(identity: string, content: Content, origin: string, key: string, mode: Mode)

  datatype Lease = Lease(owner: string, expiresAt: int)

  datatype Receipt = Receipt(interactionId: string, inputFrameId: Option<string>)

  datatype Attempt = Attempt(
    id: string, scope: string, destination: string, origin: string, key: string,
    text: string, contexts: seq<string>, addedAt: int, state: State,
    envelope: Option<Envelope>, lease: Option<Lease>,
    error: Option<Note>, failureKind: Option<string>, accepted: Option<Receipt>)

  /** The error line of a row. */
  datatype Note = PageClosed | Reported(message: string)

  datatype Outcome =
    | Delivered(receipt: Receipt)
    | Failed(rejected: bool, error: string, kind: Option<string>)

  const LEASE_MS: int := 15000

  predicate NonBlank(s: string) {
    Trim(s) != ""
  }

  function ContentOf(a: Attempt): Content {
    if a.contexts == [] then Plain(a.text) else Quoted(a.text, a.contexts)
  }

  predicate ProvesAcceptance(r: Receipt) {
    NonBlank(r.interactionId) && (r.inputFrameId.Some? ==> NonBlank(r.inputFrameId.value))
  }

  predicate Carries(e: Envelope, a: Attempt) {
    e.identity == a.destination && e.origin == a.origin && e.key == a.key && e.content == ContentOf(a)
  }

  predicate Valid(a: Attempt) {
    && NonBlank(a.id) && NonBlank(a.scope) && NonBlank(a.destination) && NonBlank(a.origin) && NonBlank(a.key)
       && NonBlank(a.text)
    && (a.failureKind.Some? ==> NonBlank(a.failureKind.value) && (a.state == Rejected || a.state == Unknown))
    && (a.lease.Some? <==> a.state == Attempting)
    && (a.lease.Some? ==> NonBlank(a.lease.value.owner))
    && (a.accepted.Some? <==> a.state == Accepted)
    && (a.accepted.Some? ==> ProvesAcceptance(a.accepted.value))
    && (a.envelope.Some? <==> a.state != Draft)
    && (a.envelope.Some? ==> Carries(a.envelope.value, a))
  }

  // ----- The life of an attempt -----

  predicate MayBegin(a: Attempt, retryRejected: bool, resend: bool) {
    a.state == Draft || (a.state == Rejected && (retryRejected || resend)) || (a.state == Unknown && resend)
  }

  function Begin(a: Attempt, owner: string, now: int, mode: Mode, retryRejected: bool, resend: bool): Option<Attempt> {
    if !Valid(a) || !NonBlank(owner) || !MayBegin(a, retryRejected, resend) then None
    else if a.envelope.Some? && a.envelope.value.mode != mode then None
    else
      var envelope :=
        if a.envelope.Some? then a.envelope.value
        else Envelope(a.destination, ContentOf(a), a.origin, a.key, mode);
      Some(a.(state := Attempting, envelope := Some(envelope), lease := Some(Lease(owner, now + LEASE_MS)),
              error := None, failureKind := None))
  }

  function Recover(a: Attempt, now: int): Attempt {
    if a.state == Attempting && (a.lease.None? || a.lease.value.expiresAt <= now)
    then a.(state := Unknown, lease := None, error := Some(PageClosed))
    else a
  }

  function Finish(a: Attempt, outcome: Outcome): Option<Attempt> {
    if !Valid(a) then None
    else if a.state == Accepted then Some(a)
    else if a.envelope.None? then None
    else match outcome
      case Delivered(receipt) =>
        if !ProvesAcceptance(receipt) then None
        else Some(a.(state := Accepted, lease := None, error := None, failureKind := None, accepted := Some(receipt)))
      case Failed(rejected, error, kind) =>
        Some(a.(state := if rejected then Rejected else Unknown, lease := None, error := Some(Reported(error)),
                failureKind := kind))
  }

  /** What no operation may undo: the name and the key stay, a frozen envelope
      stays, an accepted attempt does not change at all. */
  predicate Follows(a: Attempt, b: Attempt) {
    && b.id == a.id && b.key == a.key
    && (a.envelope.Some? ==> b.envelope == a.envelope)
    && (a.state == Accepted ==> b == a)
  }

  lemma FollowsIsTransitive(a: Attempt, b: Attempt, c: Attempt)
    requires Follows(a, b) && Follows(b, c)
    ensures Follows(a, c)
  {}

  /** A begun attempt is well formed, in flight under its own lease, and carries
      the message it was created with: frozen now, or as it was frozen before. */
  lemma BeginFreezes(a: Attempt, owner: string, now: int, mode: Mode, retryRejected: bool, resend: bool)
    ensures Begin(a, owner, now, mode, retryRejected, resend).Some? <==>
              && Valid(a) && NonBlank(owner) && MayBegin(a, retryRejected, resend)
              && (a.envelope.Some? ==> a.envelope.value.mode == mode)
    ensures Begin(a, owner, now, mode, retryRejected, resend).Some? ==>
              var b := Begin(a, owner, now, mode, retryRejected, resend).value;
              && Valid(b) && Follows(a, b) && b.state == Attempting && b.envelope.value.mode == mode
              && b.lease.value.expiresAt == now + LEASE_MS
  {}

  /** Recovery only ever says "unknown": it keeps the envelope, invents no
      acceptance and no rejection, and a second recovery changes nothing. */
  lemma RecoverIsSafe(a: Attempt, now: int, later: int)
    requires Valid(a)
    ensures var b := Recover(a, now);
            && Valid(b) && Follows(a, b)
            && (b != a ==> a.state == Attempting && b.state == Unknown)
            && (b != a ==> Recover(b, later) == b)
  {}

  /** A settled attempt keeps its envelope; a draft cannot be settled, and
      acceptance once recorded survives every later outcome. */
  lemma FinishSettles(a: Attempt, outcome: Outcome)
    requires outcome.Failed? && outcome.kind.Some? ==> NonBlank(outcome.kind.value)
    ensures Finish(a, outcome).Some? <==>
              Valid(a) && a.state != Draft
              && (a.state == Accepted || outcome.Failed? || ProvesAcceptance(outcome.receipt))
    ensures Finish(a, outcome).Some? ==>
              var b := Finish(a, outcome).value;
              Valid(b) && Follows(a, b) && b.state != Draft && b.state != Attempting
  {}

  /** Two well-formed attempts with one envelope say the same thing under the same key. */
  lemma EnvelopeFixesMessage(a: Attempt, b: Attempt)
    requires Valid(a) && Valid(b) && a.envelope.Some? && b.envelope == a.envelope
    ensures a.destination == b.destination && a.origin == b.origin && a.key == b.key && ContentOf(a) == ContentOf(b)
  {}

  // ----- The saved document -----

  datatype Document = Missing | Unreadable | Saved(rows: seq<Attempt>)

  predicate Unique(rows: seq<Attempt>) {
    forall i, j :: 0 <= i < j < |rows| ==> rows[i].id != rows[j].id
  }

  predicate InScope(a: Attempt, namespace: string, destination: string) {
    Valid(a) && a.scope == namespace && a.destination == destination
  }

  predicate AllInScope(rows: seq<Attempt>, namespace: string, destination: string) {
    forall i :: 0 <= i < |rows| ==> InScope(rows[i], namespace, destination)
  }

  predicate Readable(rows: seq<Attempt>, namespace: string, destination: string) {
    AllInScope(rows, namespace, destination) && Unique(rows)
  }

  function Recovered(rows: seq<Attempt>, now: int): (r: seq<Attempt>)
    ensures |r| == |rows|
    ensures forall i :: 0 <= i < |rows| ==> r[i] == Recover(rows[i], now)
  {
    seq(|rows|, i requires 0 <= i < |rows| => Recover(rows[i], now))
  }

  function Load(doc: Document, namespace: string, destination: string, now: int): Option<seq<Attempt>> {
    match doc
    case Missing => Some([])
    case Unreadable => None
    case Saved(rows) => if Readable(rows, namespace, destination) then Some(Recovered(rows, now)) else None
  }

  /** Parses a saved document row by row, refusing it whole at the first bad row. */
  method ParseRows(rows: seq<Attempt>, ok: Attempt -> bool, now: int) returns (r: Option<seq<Attempt>>)
    ensures r.Some? <==> (forall i :: 0 <= i < |rows| ==> ok(rows[i])) && Unique(rows)
    ensures r.Some? ==> r.value == Recovered(rows, now)
  {
    var ids: set<string>, attempts: seq<Attempt> := {}, [];
    for i := 0 to |rows|
      invariant forall id :: id in ids <==> exists k :: 0 <= k < i && rows[k].id == id
      invariant attempts == Recovered(rows[..i], now)
      invariant forall k :: 0 <= k < i ==> ok(rows[k])
      invariant forall k, l :: 0 <= k < l < i ==> rows[k].id != rows[l].id
    {
      if !ok(rows[i]) || rows[i].id in ids {
        return None;
      }
      ids := ids + {rows[i].id};
      attempts := attempts + [Recover(rows[i], now)];
      assert rows[..i + 1] == rows[..i] + [rows[i]];
    }
    assert rows[..|rows|] == rows;
    r := Some(attempts);
  }

  method LoadAttempts(doc: Document, namespace: string, destination: string, now: int) returns (r: Option<seq<Attempt>>)
    ensures r == Load(doc, namespace, destination, now)
  {
    match doc {
      case Missing => r := Some([]);
      case Unreadable => r := None;
      case Saved(rows) => r := ParseRows(rows, a => InScope(a, namespace, destination), now);
    }
  }

  // ----- The merge -----

  /** `new Map(rows.map(a => [a.id, a]))`. */
  function IdMap(rows: seq<Attempt>): map<string, Attempt> {
    if rows == [] then map[]
    else IdMap(rows[..|rows| - 1])[rows[|rows| - 1].id := rows[|rows| - 1]]
  }

  /** The caller's update of a row replaces the stored one unless it changes
      nothing or the stored one is accepted. */
  function Pick(stored: Attempt, update: Attempt, seen: Attempt): Attempt {
    if update == seen || stored.state == Accepted then stored else update
  }

  /** The update would take back a send that another tab has begun. */
  predicate Clash(stored: Attempt, update: Attempt, seen: Attempt) {
    && update != seen && stored.state != Accepted
    && ((stored.state != Draft && update.state == Draft)
        || (stored.envelope.Some? && update.envelope != stored.envelope))
  }

  predicate Clashes(c: map<string, Attempt>, n: map<string, Attempt>, p: map<string, Attempt>) {
    exists id :: id in p && id in n && id in c && Clash(c[id], n[id], p[id])
  }

  /** A row the caller had seen stays if both the caller and the store still have
      it; a row the caller had not seen stays if either has it. */
  predicate Kept(c: map<string, Attempt>, n: map<string, Attempt>, p: map<string, Attempt>, id: string) {
    if id in p then id in n && id in c else id in c || id in n
  }

  function Row(c: map<string, Attempt>, n: map<string, Attempt>, p: map<string, Attempt>, id: string): Attempt
    requires Kept(c, n, p, id)
  {
    if id in p then Pick(c[id], n[id], p[id]) else if id in c then c[id] else n[id]
  }

  function Outcomes(c: map<string, Attempt>, n: map<string, Attempt>, p: map<string, Attempt>): map<string, Attempt> {
    map id | id in c.Keys + n.Keys && Kept(c, n, p, id) :: Row(c, n, p, id)
  }

  function Gather(rows: seq<Attempt>, m: map<string, Attempt>): seq<Attempt> {
    if rows == [] then []
    else
      var last := rows[|rows| - 1].id;
      Gather(rows[..|rows| - 1], m) + if last in m then [m[last]] else []
  }

  /** The caller's order for the rows it has, then the rows only the store has. */
  function Merged(current: seq<Attempt>, next: seq<Attempt>, previous: seq<Attempt>): seq<Attempt> {
    var c, n, p := IdMap(current), IdMap(next), IdMap(previous);
    var m := Outcomes(c, n, p);
    Gather(next, m) + Gather(current, m - n.Keys)
  }

  predicate ReplacesEnvelope(c: map<string, Attempt>, a: Attempt) {
    a.id in c && c[a.id].envelope.Some? && c[a.id].envelope != a.envelope
  }

  function KeepAccepted(c: map<string, Attempt>, a: Attempt): Attempt {
    if a.id in c && c[a.id].state == Accepted then c[a.id] else a
  }

  function Settled(c: map<string, Attempt>, rows: seq<Attempt>): (r: seq<Attempt>)
    ensures |r| == |rows|
    ensures forall i :: 0 <= i < |rows| ==> r[i] == KeepAccepted(c, rows[i])
  {
    seq(|rows|, i requires 0 <= i < |rows| => KeepAccepted(c, rows[i]))
  }

  function Checked(c: map<string, Attempt>, merged: seq<Attempt>, namespace: string,
                   destination: string): Option<seq<Attempt>> {
    if AllInScope(merged, namespace, destination) && (forall i :: 0 <= i < |merged| ==> !ReplacesEnvelope(c, merged[i]))
    then Some(Settled(c, merged))
    else None
  }

  /** The rows a save writes over the rows it loaded. */
  function Save(current: seq<Attempt>, next: seq<Attempt>, previous: Option<seq<Attempt>>, namespace: string,
                destination: string): Option<seq<Attempt>> {
    var c := IdMap(current);
    if previous.None? then Checked(c, next, namespace, destination)
    else if Clashes(c, IdMap(next), IdMap(previous.value)) then None
    else Checked(c, Merged(current, next, previous.value), namespace, destination)
  }

  lemma {:induction false} IdMapSpec(rows: seq<Attempt>)
    ensures forall i :: 0 <= i < |rows| ==> rows[i].id in IdMap(rows)
    ensures forall id :: id in IdMap(rows) ==> IdMap(rows)[id] in rows && IdMap(rows)[id].id == id
    ensures Unique(rows) ==> forall i :: 0 <= i < |rows| ==> IdMap(rows)[rows[i].id] == rows[i]
  {
    if rows != [] {
      IdMapSpec(rows[..|rows| - 1]);
      assert forall i :: 0 <= i < |rows| - 1 ==> rows[..|rows| - 1][i] == rows[i];
    }
  }

  /** The stored rows once the updates of the ids in `done` have been applied. */
  ghost predicate Handled(latest: map<string, Attempt>, c: map<string, Attempt>, n: map<string, Attempt>,
                          p: map<string, Attempt>, done: set<string>) {
    && (forall id :: id in latest <==> id in c && (id in done ==> id in n))
    && (forall id :: id in latest && id !in done ==> latest[id] == c[id])
    && (forall id :: id in latest && id in done && id in p ==>
        !Clash(c[id], n[id], p[id]) && latest[id] == Pick(c[id], n[id], p[id]))
  }

  /** What the first loop does for one row the caller had seen. */
  function ApplyOne(latest: map<string, Attempt>, n: map<string, Attempt>, p: map<string, Attempt>,
                    id: string): Option<map<string, Attempt>>
    requires id in p
  {
    if id !in n then Some(latest - {id})
    else if id !in latest then Some(latest)
    else if Clash(latest[id], n[id], p[id]) then None
    else Some(latest[id := Pick(latest[id], n[id], p[id])])
  }

  lemma ApplyOneHandles(latest: map<string, Attempt>, c: map<string, Attempt>, n: map<string, Attempt>,
                        p: map<string, Attempt>, done: set<string>, id: string)
    requires Handled(latest, c, n, p, done) && id in p
    ensures var r := ApplyOne(latest, n, p, id);
            if r.Some? then Handled(r.value, c, n, p, done + {id}) else Clashes(c, n, p)
  {
    var r := ApplyOne(latest, n, p, id);
    if r.None? {
      assert Clash(c[id], n[id], p[id]);
    } else {
      assert forall k :: k in r.value && k != id ==> k in latest && r.value[k] == latest[k];
    }
  }

  /** The first loop, over the rows the caller had seen. */
  method ApplyUpdates(c: map<string, Attempt>, n: map<string, Attempt>, p: map<string, Attempt>, ids: seq<string>)
    returns (r: Option<map<string, Attempt>>)
    requires forall id :: id in p <==> id in ids
    ensures r.None? <==> Clashes(c, n, p)
    ensures r.Some? ==> Handled(r.value, c, n, p, p.Keys)
  {
    r := Some(c);
    ghost var done: set<string> := {};
    for i := 0 to |ids|
      invariant r.Some? && Handled(r.value, c, n, p, done)
      invariant forall id :: id in done <==> id in ids[..i]
    {
      assert ids[i] in p;
      ApplyOneHandles(r.value, c, n, p, done, ids[i]);
      done := done + {ids[i]};
      r := ApplyOne(r.value, n, p, ids[i]);
      if r.None? { return; }
    }
    assert done == p.Keys;
  }

  /** The second loop adds the rows only the caller has. */
  method AddUnseen(latest: map<string, Attempt>, n: map<string, Attempt>, p: map<string, Attempt>, ids: seq<string>)
    returns (r: map<string, Attempt>)
    requires forall id :: id in n <==> id in ids
    ensures forall id :: id in r <==> id in latest || (id in n && id !in p)
    ensures forall id :: id in r ==> r[id] == if id in latest then latest[id] else n[id]
  {
    r := latest;
    for i := 0 to |ids|
      invariant forall id :: id in r <==> id in latest || (id in ids[..i] && id !in p)
      invariant forall id :: id in r ==> r[id] == if id in latest then latest[id] else n[id]
    {
      var id := ids[i];
      assert id in n;
      if id !in p && id !in r {
        r := r[id := n[id]];
      }
    }
  }

  function Ids(rows: seq<Attempt>): (ids: seq<string>)
    ensures |ids| == |rows| && forall i :: 0 <= i < |rows| ==> ids[i] == rows[i].id
  {
    seq(|rows|, i requires 0 <= i < |rows| => rows[i].id)
  }

  lemma IdMapKeys(rows: seq<Attempt>, id: string)
    ensures id in IdMap(rows) <==> id in Ids(rows)
  {
    IdMapSpec(rows);
    if id in IdMap(rows) {
      var i :| 0 <= i < |rows| && rows[i] == IdMap(rows)[id];
      assert Ids(rows)[i] == id;
    }
  }

  lemma HandledGivesOutcomes(latest: map<string, Attempt>, c: map<string, Attempt>, n: map<string, Attempt>,
                             p: map<string, Attempt>, r: map<string, Attempt>)
    requires Handled(latest, c, n, p, p.Keys)
    requires forall id :: id in r <==> id in latest || (id in n && id !in p)
    requires forall id :: id in r ==> r[id] == if id in latest then latest[id] else n[id]
    ensures r == Outcomes(c, n, p)
  {
    var m := Outcomes(c, n, p);
    forall id ensures id in r <==> id in m {}
    forall id | id in r ensures r[id] == m[id] {}
  }

  /** The two loops together give every row its outcome. */
  method Reconcile(c: map<string, Attempt>, next: seq<Attempt>, previous: seq<Attempt>)
    returns (r: Option<map<string, Attempt>>)
    ensures r.None? <==> Clashes(c, IdMap(next), IdMap(previous))
    ensures r.Some? ==> r.value == Outcomes(c, IdMap(next), IdMap(previous))
  {
    var n, p := IdMap(next), IdMap(previous);
    forall id ensures id in n <==> id in Ids(next) { IdMapKeys(next, id); }
    forall id ensures id in p <==> id in Ids(previous) { IdMapKeys(previous, id); }
    var updated := ApplyUpdates(c, n, p, Ids(previous));
    if updated.None? { return None; }
    var latest := AddUnseen(updated.value, n, p, Ids(next));
    HandledGivesOutcomes(updated.value, c, n, p, latest);
    r := Some(latest);
  }

  method GatherRows(rows: seq<Attempt>, m: map<string, Attempt>) returns (r: seq<Attempt>)
    ensures r == Gather(rows, m)
  {
    r := [];
    for i := 0 to |rows|
      invariant r == Gather(rows[..i], m)
    {
      assert rows[..i + 1][..i] == rows[..i];
      if rows[i].id in m { r := r + [m[rows[i].id]]; }
    }
    assert rows[..|rows|] == rows;
  }

  method KeepFrozen(c: map<string, Attempt>, merged: seq<Attempt>) returns (r: Option<seq<Attempt>>)
    ensures r.Some? <==> forall i :: 0 <= i < |merged| ==> !ReplacesEnvelope(c, merged[i])
    ensures r.Some? ==> r.value == Settled(c, merged)
  {
    var rows: seq<Attempt> := [];
    for i := 0 to |merged|
      invariant |rows| == i && forall k :: 0 <= k < i ==> rows[k] == KeepAccepted(c, merged[k])
      invariant forall k :: 0 <= k < i ==> !ReplacesEnvelope(c, merged[k])
    {
      if ReplacesEnvelope(c, merged[i]) { return None; }
      rows := rows + [KeepAccepted(c, merged[i])];
    }
    assert rows == Settled(c, merged);
    r := Some(rows);
  }

  method CheckRows(c: map<string, Attempt>, merged: seq<Attempt>, namespace: string, destination: string)
    returns (r: Option<seq<Attempt>>)
    ensures r == Checked(c, merged, namespace, destination)
  {
    for i := 0 to |merged|
      invariant forall k :: 0 <= k < i ==> InScope(merged[k], namespace, destination)
    {
      if !InScope(merged[i], namespace, destination) { return None; }
    }
    r := KeepFrozen(c, merged);
  }

  /** Merges the caller's queue into the stored one and checks every row. */
  method SaveRows(current: seq<Attempt>, next: seq<Attempt>, previous: Option<seq<Attempt>>, namespace: string,
                  destination: string)
      returns (r: Option<seq<Attempt>>)
    ensures r == Save(current, next, previous, namespace, destination)
  {
    var c := IdMap(current);
    if previous.None? {
      r := CheckRows(c, next, namespace, destination);
    } else {
      var latest := Reconcile(c, next, previous.value);
      if latest.None? { return None; }
      var known := GatherRows(next, latest.value);
      var others := GatherRows(current, latest.value - IdMap(next).Keys);
      r := CheckRows(c, known + others, namespace, destination);
    }
  }
}
