/** Any number of tabs over one saved queue: what every interleaving of their
    lock sections, submissions and answers keeps (console/src/ConsoleApp.tsx). */
module SendTabs {
  import opened Wrappers
  import opened SendAttempts
  import opened SendMerge
  import opened SendQueue

  /** One call of the dispatcher, numbered by its place in `dispatches`. An
      automatic drain, a direct send and a steer never ask for a resend. */
  datatype Dispatch = Dispatch(id: string, mode: Mode, resend: bool, phase: Phase)

  datatype Phase = Waiting | Holding(envelope: Envelope) | Sent | Dropped

  datatype Event =
    | Froze(ticket: nat, id: string, envelope: Envelope, fromDraft: bool)
    | Submitted(ticket: nat, id: string, envelope: Envelope)
    | Acknowledged(key: string)

  /** `issued`: the attempt that each idempotency key was made for. `imported`: the
      saved mark that the older queue has been taken over. `importers`: tabs that
      found the mark missing and have not saved their import yet. */
  datatype System = System(
    at: Place, rows: seq<Attempt>, dispatches: seq<Dispatch>, log: seq<Event>,
    issued: map<string, string>, imported: bool, importers: nat)

  datatype Step =
    | Write(update: Update, visible: seq<Attempt>, t: Clock)
    | AskImport
    | Request(id: string, mode: Mode, resend: bool)
    | Take(ticket: nat, owner: string, gates: Gates, t: Clock)
    | Submit(ticket: nat)
    | Drop(ticket: nat)

  /** Ids of imported rows; new messages never get one. */
  predicate IsLegacy(id: string) {
    "legacy:" <= id
  }

  /** Drafts under keys that were never used. */
  ghost predicate FreshKeys(items: seq<Attempt>, issued: map<string, string>) {
    && (forall a :: a in items ==> a.state == Draft && a.key !in issued)
    && (forall i, j :: 0 <= i < j < |items| ==> items[i].key != items[j].key)
  }

  /** A new message gets an id and a key never used before. An import gives new keys
      to rows named after the older ones, by a tab that asked before, outside the
      lock, whether it was done. Nothing else is asked of a step: any tab may do
      anything at any time on any stale view. */
  ghost predicate Allowed(s: System, step: Step) {
    step.Write? ==>
      match step.update
      case Append(item) => FreshKeys([item], s.issued) && !IsLegacy(item.id) && item.id !in s.issued.Values
      case Import(items) =>
        s.importers > 0 && FreshKeys(items, s.issued) && Unique(items) && forall a :: a in items ==> IsLegacy(a.id)
      case _ => true
  }

  predicate IsDraft(rows: seq<Attempt>, id: string) {
    var row := FindRow(rows, id);
    row.Some? && row.value.state == Draft
  }

  /** The update records an acceptance. */
  predicate Acknowledges(u: Update, seen: seq<Attempt>) {
    (u.Settle? || u.SettleDetached?) && u.outcome.Delivered? && FindRow(seen, u.id).Some?
  }

  function Entry(u: Update, seen: seq<Attempt>): seq<Event> {
    if Acknowledges(u, seen) then [Acknowledged(FindRow(seen, u.id).value.key)] else []
  }

  function Issue(issued: map<string, string>, added: seq<Attempt>): map<string, string> {
    if added == [] then issued
    else Issue(issued, added[..|added| - 1])[added[|added| - 1].key := added[|added| - 1].id]
  }

  ghost predicate HasKey(added: seq<Attempt>, k: string) {
    exists a :: a in added && a.key == k
  }

  lemma IssueStep(issued: map<string, string>, more: map<string, string>, init: seq<Attempt>, a: Attempt)
    requires forall k :: k in issued ==> k in more && more[k] == issued[k]
    requires forall b :: b in init ==> b.key in more && more[b.key] == b.id
    requires forall k :: k in more && k !in issued ==> HasKey(init, k)
    requires a.key !in issued && !HasKey(init, a.key)
    ensures var most := more[a.key := a.id];
            && (forall k :: k in issued ==> k in most && most[k] == issued[k])
            && (forall b :: b in init + [a] ==> b.key in most && most[b.key] == b.id)
            && (forall k :: k in most && k !in issued ==> HasKey(init + [a], k))
  {
    var most := more[a.key := a.id];
    forall k | k in most && k !in issued ensures HasKey(init + [a], k) {
      if k == a.key {
        assert a in init + [a];
      } else {
        var b :| b in init && b.key == k;
        assert b in init + [a];
      }
    }
  }

  lemma {:induction false} IssueSpec(issued: map<string, string>, added: seq<Attempt>)
    requires FreshKeys(added, issued)
    ensures forall k :: k in issued ==> k in Issue(issued, added) && Issue(issued, added)[k] == issued[k]
    ensures forall a :: a in added ==> a.key in Issue(issued, added) && Issue(issued, added)[a.key] == a.id
    ensures forall k :: k in Issue(issued, added) && k !in issued ==> HasKey(added, k)
  {
    if added != [] {
      var init, a := added[..|added| - 1], added[|added| - 1];
      assert added == init + [a] && a in added;
      assert forall b :: b in init ==> b in added && b.key != a.key;
      IssueSpec(issued, init);
      IssueStep(issued, Issue(issued, init), init, a);
    }
  }

  lemma FreshSubset(items: seq<Attempt>, ids: seq<string>, issued: map<string, string>)
    requires FreshKeys(items, issued)
    ensures FreshKeys(NotTaken(items, ids), issued)
    decreases |items|
  {
    if items != [] {
      var init := items[..|items| - 1];
      assert forall a :: a in init ==> a in items;
      FreshSubset(init, ids, issued);
      NotTakenSpec(init, ids);
      assert items[|items| - 1] in items;
      assert forall a :: a in NotTaken(init, ids) ==> a.key != items[|items| - 1].key;
    }
  }

  function Rewritten(s: System, m: seq<Attempt>, added: seq<Attempt>, entry: seq<Event>): System {
    s.(rows := m, issued := Issue(s.issued, added), log := s.log + entry)
  }

  /** Dispatch `k` has frozen its attempt and saved the queue `m`. */
  function Taken(s: System, k: nat, e: Envelope, m: seq<Attempt>): System
    requires k < |s.dispatches|
  {
    var d := s.dispatches[k];
    s.(rows := m, dispatches := s.dispatches[k := d.(phase := Holding(e))],
       log := s.log + [Froze(k, d.id, e, IsDraft(s.rows, d.id))])
  }

  function FreezeFor(s: System, d: Dispatch, owner: string, gates: Gates, t: Clock): Option<(Attempt, seq<Attempt>)> {
    Freeze(s.rows, s.at, d.id, owner, d.mode, d.resend, gates, t)
  }

  function TakeResult(s: System, k: nat, r: Option<(Attempt, seq<Attempt>)>): System
    requires k < |s.dispatches|
  {
    if r.None? || r.value.0.envelope.None? then s.(dispatches := s.dispatches[k := s.dispatches[k].(phase := Dropped)])
    else Taken(s, k, r.value.0.envelope.value, r.value.1)
  }

  /** The tab is done asking, whether its import was saved or not. */
  function AfterImport(s: System, u: Update, saved: bool): System {
    if !u.Import? then s
    else s.(imported := s.imported || saved, importers := if s.importers > 0 then s.importers - 1 else 0)
  }

  function Next(s: System, step: Step): System {
    match step
    case Write(u, visible, t) =>
      var r := Commit(s.rows, u, visible, s.at, t);
      if r.None? then AfterImport(s, u, false)
      else
        var entry := Entry(u, Seen(s.rows, u, visible, t.load));
        AfterImport(Rewritten(s, r.value, Added(u, Ids(s.rows)), entry), u, true)
    case AskImport => if s.imported then s else s.(importers := s.importers + 1)
    case Request(id, mode, resend) => s.(dispatches := s.dispatches + [Dispatch(id, mode, resend, Waiting)])
    case Take(k, owner, gates, t) =>
      if k >= |s.dispatches| || !s.dispatches[k].phase.Waiting? then s
      else TakeResult(s, k, FreezeFor(s, s.dispatches[k], owner, gates, t))
    case Submit(k) =>
      if k >= |s.dispatches| || !s.dispatches[k].phase.Holding? then s
      else
        var d := s.dispatches[k];
        s.(dispatches := s.dispatches[k := d.(phase := Sent)], log := s.log + [Submitted(k, d.id, d.phase.envelope)])
    case Drop(k) =>
      if k >= |s.dispatches| || s.dispatches[k].phase.Sent? then s
      else s.(dispatches := s.dispatches[k := s.dispatches[k].(phase := Dropped)])
  }

  lemma TakeIsFreeze(s: System, k: nat, owner: string, gates: Gates, t: Clock)
    requires k < |s.dispatches| && s.dispatches[k].phase.Waiting?
    ensures Next(s, Take(k, owner, gates, t)) == TakeResult(s, k, FreezeFor(s, s.dispatches[k], owner, gates, t))
  {}

  lemma FrozenIsTaken(s: System, k: nat, b: Attempt, m: seq<Attempt>)
    requires k < |s.dispatches| && b.envelope.Some?
    ensures TakeResult(s, k, Some((b, m))) == Taken(s, k, b.envelope.value, m)
  {}

  function RunWith(next: (System, Step) -> System, s: System, steps: seq<Step>): System
    decreases |steps|
  {
    if steps == [] then s else RunWith(next, next(s, steps[0]), steps[1..])
  }

  ghost predicate PermitsWith(next: (System, Step) -> System, allowed: (System, Step) -> bool, s: System,
                              steps: seq<Step>)
    decreases |steps|
  {
    steps == [] || (allowed(s, steps[0]) && PermitsWith(next, allowed, next(s, steps[0]), steps[1..]))
  }

  function Run(s: System, steps: seq<Step>): System {
    RunWith(Next, s, steps)
  }

  ghost predicate Permits(s: System, steps: seq<Step>) {
    PermitsWith(Next, Allowed, s, steps)
  }

  function Start(at: Place): System {
    System(at, [], [], [], map[], false, 0)
  }

  // ----- The invariant -----

  ghost predicate RowsSound(s: System) {
    && Readable(s.rows, s.at.namespace, s.at.destination)
    && (forall i :: 0 <= i < |s.rows| ==> s.rows[i].key in s.issued && s.issued[s.rows[i].key] == s.rows[i].id)
  }

  /** The stored row of a frozen attempt, if it is still there, has that envelope. */
  ghost predicate StoredAs(rows: seq<Attempt>, key: string, e: Envelope) {
    forall r :: 0 <= r < |rows| && rows[r].key == key ==> rows[r].envelope == Some(e)
  }

  ghost predicate StoredAccepted(rows: seq<Attempt>, key: string) {
    forall r :: 0 <= r < |rows| && rows[r].key == key ==> rows[r].state == Accepted
  }

  ghost predicate EventRows(s: System, e: Event) {
    match e
    case Froze(_, id, envelope, _) =>
      envelope.key in s.issued && s.issued[envelope.key] == id && StoredAs(s.rows, envelope.key, envelope)
    case Submitted(_, _, _) => true
    case Acknowledged(key) => key in s.issued && StoredAccepted(s.rows, key)
  }

  ghost predicate EventTicket(s: System, e: Event) {
    match e
    case Froze(k, id, _, fromDraft) =>
      && k < |s.dispatches| && s.dispatches[k].id == id && !s.dispatches[k].phase.Waiting?
      && (!fromDraft ==> s.dispatches[k].resend)
    case Submitted(k, id, _) =>
      k < |s.dispatches| && s.dispatches[k].id == id && s.dispatches[k].phase.Sent?
    case Acknowledged(_) => true
  }

  /** What an earlier and a later event of a log may be. */
  predicate Ordered(e: Event, f: Event) {
    && (e.Froze? && f.Froze? ==>
          e.ticket != f.ticket && (e.envelope.key == f.envelope.key ==> !f.fromDraft && e.envelope == f.envelope))
    && (e.Submitted? && f.Submitted? ==> e.ticket != f.ticket)
    && (e.Acknowledged? && f.Froze? ==> e.key != f.envelope.key)
  }

  /** Before position `n` the log shows the saved freeze of this ticket. */
  ghost predicate SavedBefore(log: seq<Event>, n: nat, ticket: nat, id: string, envelope: Envelope) {
    exists i :: 0 <= i < n && i < |log| && log[i].Froze? && log[i].ticket == ticket && log[i].id == id
                && log[i].envelope == envelope
  }

  ghost predicate LogSound(s: System) {
    && (forall i :: 0 <= i < |s.log| ==> EventRows(s, s.log[i]))
    && (forall i :: 0 <= i < |s.log| ==> EventTicket(s, s.log[i]))
    && (forall i, j :: 0 <= i < j < |s.log| ==> Ordered(s.log[i], s.log[j]))
  }

  ghost predicate Backed(s: System) {
    && (forall j :: 0 <= j < |s.log| && s.log[j].Submitted? ==>
        SavedBefore(s.log, j, s.log[j].ticket, s.log[j].id, s.log[j].envelope))
    && (forall k :: 0 <= k < |s.dispatches| && s.dispatches[k].phase.Holding? ==>
          SavedBefore(s.log, |s.log|, k, s.dispatches[k].id, s.dispatches[k].phase.envelope))
  }

  ghost predicate Sound(s: System) {
    RowsSound(s) && LogSound(s) && Backed(s)
  }

  // ----- Writes -----

  /** A continued queue keeps what the log says about the rows. */
  lemma ContinuedEvents(s: System, m: seq<Attempt>, added: seq<Attempt>, issued: map<string, string>, e: Event)
    requires EventRows(s, e) && Continues(s.rows, m, added)
    requires forall a :: a in added ==> a.key !in s.issued
    requires forall k :: k in s.issued ==> k in issued && issued[k] == s.issued[k]
    ensures EventRows(s.(rows := m, issued := issued), e)
  {
    if !e.Submitted? {
      var key := if e.Froze? then e.envelope.key else e.key;
      forall r | 0 <= r < |m| && m[r].key == key
        ensures e.Froze? ==> m[r].envelope == Some(e.envelope)
        ensures e.Acknowledged? ==> m[r].state == Accepted
      {
        assert Continued(s.rows, m[r], added);
      }
    }
  }

  lemma ContinuedRows(s: System, m: seq<Attempt>, added: seq<Attempt>)
    requires RowsSound(s) && Continues(s.rows, m, added) && Readable(m, s.at.namespace, s.at.destination)
    requires FreshKeys(added, s.issued)
    ensures RowsSound(s.(rows := m, issued := Issue(s.issued, added)))
  {
    IssueSpec(s.issued, added);
    forall i | 0 <= i < |m| ensures m[i].key in Issue(s.issued, added) && Issue(s.issued, added)[m[i].key] == m[i].id {
      assert Continued(s.rows, m[i], added);
    }
  }

  ghost predicate AcceptedRow(m: seq<Attempt>, id: string) {
    forall r :: 0 <= r < |m| && m[r].id == id ==> m[r].state == Accepted
  }

  /** A committed acceptance is stored: the row is accepted or gone. */
  lemma AcknowledgedIsStored(rows: seq<Attempt>, u: Update, visible: seq<Attempt>, at: Place, t: Clock, m: seq<Attempt>)
    requires Readable(rows, at.namespace, at.destination) && Commit(rows, u, visible, at, t) == Some(m)
    requires Acknowledges(u, Seen(rows, u, visible, t.load))
    ensures AcceptedRow(m, u.id)
    ensures HasRow(rows, u.id, FindRow(Seen(rows, u, visible, t.load), u.id).value.key)
  {
    var seen := Seen(rows, u, visible, t.load);
    var next := Apply(u, seen).value;
    SeenShows(rows, u, visible, t.load);
    ShownIds(rows, seen);
    ApplyContinues(u, seen);
    SectionContinues(rows, seen, next, at, t.save, [], m);
    AcceptedIsWritten(rows, seen, u, t.save, m);
    FindRowSpec(seen, u.id);
    var k :| 0 <= k < |seen| && seen[k] == FindRow(seen, u.id).value && seen[k].id == u.id;
    assert Shows(rows[k], seen[k]);
  }

  lemma AppliedIsAccepted(seen: seq<Attempt>, u: Update, i: nat)
    requires Unique(seen) && Acknowledges(u, seen) && Apply(u, seen).Some?
    requires i < |Apply(u, seen).value| && Apply(u, seen).value[i].id == u.id
    ensures Apply(u, seen).value[i].state == Accepted
  {
    FindRowSpec(seen, u.id);
    WithoutContinues(seen, u.id);
  }

  lemma AcceptedIsWritten(rows: seq<Attempt>, seen: seq<Attempt>, u: Update, save: int, m: seq<Attempt>)
    requires Unique(seen) && AllShow(rows, seen) && SameRows(Recovered(rows, save), seen)
    requires Acknowledges(u, seen) && Apply(u, seen).Some?
    requires Written(Recovered(rows, save), Apply(u, seen).value, seen, m)
    requires Ids(m) == Ids(Apply(u, seen).value)
    ensures AcceptedRow(m, u.id)
  {
    var current := Recovered(rows, save);
    var next := Apply(u, seen).value;
    forall r | 0 <= r < |m| && m[r].id == u.id ensures m[r].state == Accepted {
      assert Ids(m)[r] == Ids(next)[r];
      AppliedIsAccepted(seen, u, r);
      assert WrittenRow(current, seen, next[r], m[r]);
      if k :| 0 <= k < |current| && current[k].id == u.id {
        assert m[r] == Pick(current[k], next[r], seen[k]) && Shows(rows[k], seen[k]);
      } else {
        assert u.id !in Ids(current);
      }
    }
  }

  lemma AllowedIsAddable(s: System, u: Update, visible: seq<Attempt>, t: Clock)
    requires RowsSound(s) && Allowed(s, Write(u, visible, t))
    ensures Addable(u, Ids(s.rows)) && FreshKeys(Added(u, Ids(s.rows)), s.issued)
  {
    if u.Append? {
      forall i | 0 <= i < |s.rows| ensures s.rows[i].id != u.item.id {
        assert s.issued[s.rows[i].key] in s.issued.Values;
      }
    } else if u.Import? {
      FreshSubset(u.items, Ids(s.rows), s.issued);
    }
  }

  lemma WriteKeepsSound(s: System, u: Update, visible: seq<Attempt>, t: Clock)
    requires Sound(s) && Allowed(s, Write(u, visible, t))
    ensures Sound(Next(s, Write(u, visible, t)))
  {
    var r := Commit(s.rows, u, visible, s.at, t);
    if r.Some? {
      var added, entry := Added(u, Ids(s.rows)), Entry(u, Seen(s.rows, u, visible, t.load));
      var n := Rewritten(s, r.value, added, entry);
      assert Sound(n) by { CommitKeepsSound(s, u, visible, t, r.value); }
      ImportMarkIsSound(n, u, true);
      assert Next(s, Write(u, visible, t)) == AfterImport(n, u, true);
    } else {
      ImportMarkIsSound(s, u, false);
      assert Next(s, Write(u, visible, t)) == AfterImport(s, u, false);
    }
  }

  lemma ImportMarkIsSound(s: System, u: Update, saved: bool)
    requires Sound(s)
    ensures Sound(AfterImport(s, u, saved))
  {
    var n := AfterImport(s, u, saved);
    forall i | 0 <= i < |s.log| ensures EventRows(n, s.log[i]) && EventTicket(n, s.log[i]) {
      assert EventRows(s, s.log[i]) && EventTicket(s, s.log[i]);
    }
  }

  lemma CommitKeepsSound(s: System, u: Update, visible: seq<Attempt>, t: Clock, m: seq<Attempt>)
    requires Sound(s) && Allowed(s, Write(u, visible, t)) && Commit(s.rows, u, visible, s.at, t) == Some(m)
    ensures Sound(Rewritten(s, m, Added(u, Ids(s.rows)), Entry(u, Seen(s.rows, u, visible, t.load))))
  {
    var added, entry := Added(u, Ids(s.rows)), Entry(u, Seen(s.rows, u, visible, t.load));
    CommittedRows(s, u, visible, t, m);
    CommittedEntry(s, u, visible, t, m);
    RewrittenKeepsSound(s, m, added, entry);
  }

  lemma CommittedEntry(s: System, u: Update, visible: seq<Attempt>, t: Clock, m: seq<Attempt>)
    requires RowsSound(s) && Commit(s.rows, u, visible, s.at, t) == Some(m)
    requires FreshKeys(Added(u, Ids(s.rows)), s.issued)
    requires RowsSound(s.(rows := m, issued := Issue(s.issued, Added(u, Ids(s.rows)))))
    ensures EntriesStored(s, m, Entry(u, Seen(s.rows, u, visible, t.load)))
  {
    var seen := Seen(s.rows, u, visible, t.load);
    if Acknowledges(u, seen) {
      var added, key := Added(u, Ids(s.rows)), FindRow(seen, u.id).value.key;
      assert EntryStored(s, m, Acknowledged(key)) by {
        assert AcceptedRow(m, u.id) && HasRow(s.rows, u.id, key) by {
          AcknowledgedIsStored(s.rows, u, visible, s.at, t, m);
        }
        AcceptedByKey(s, s.(rows := m, issued := Issue(s.issued, added)), added, u.id, key);
      }
      assert Entry(u, seen) == [Acknowledged(key)];
    }
  }

  lemma CommittedRows(s: System, u: Update, visible: seq<Attempt>, t: Clock, m: seq<Attempt>)
    requires RowsSound(s) && Allowed(s, Write(u, visible, t)) && Commit(s.rows, u, visible, s.at, t) == Some(m)
    ensures Continues(s.rows, m, Added(u, Ids(s.rows))) && FreshKeys(Added(u, Ids(s.rows)), s.issued)
    ensures RowsSound(s.(rows := m, issued := Issue(s.issued, Added(u, Ids(s.rows)))))
  {
    AllowedIsAddable(s, u, visible, t);
    CommitContinues(s.rows, u, visible, s.at, t);
    ContinuedRows(s, m, Added(u, Ids(s.rows)));
  }

  ghost predicate HasRow(rows: seq<Attempt>, id: string, key: string) {
    exists k :: 0 <= k < |rows| && rows[k].id == id && rows[k].key == key
  }

  /** An acceptance to be logged is of an attempt known before and stored. */
  ghost predicate EntryStored(s: System, m: seq<Attempt>, e: Event) {
    e.Acknowledged? && e.key in s.issued && StoredAccepted(m, e.key)
  }

  ghost predicate EntriesStored(s: System, m: seq<Attempt>, entry: seq<Event>) {
    entry == [] || (|entry| == 1 && EntryStored(s, m, entry[0]))
  }

  lemma AcceptedByKey(s: System, n: System, added: seq<Attempt>, id: string, key: string)
    requires RowsSound(s) && RowsSound(n) && FreshKeys(added, s.issued) && n.issued == Issue(s.issued, added)
    requires AcceptedRow(n.rows, id) && HasRow(s.rows, id, key)
    ensures EntryStored(s, n.rows, Acknowledged(key))
  {
    assert key in n.issued && n.issued[key] == id && key in s.issued by { IssueSpec(s.issued, added); }
  }

  lemma RewrittenKeepsSound(s: System, m: seq<Attempt>, added: seq<Attempt>, entry: seq<Event>)
    requires Sound(s) && Continues(s.rows, m, added) && FreshKeys(added, s.issued)
    requires RowsSound(s.(rows := m, issued := Issue(s.issued, added)))
    requires EntriesStored(s, m, entry)
    ensures Sound(Rewritten(s, m, added, entry))
  {
    var n := Rewritten(s, m, added, entry);
    assert LogSound(n) by { RewrittenLogIsSound(s, m, added, entry); }
    LogGrows(s, n);
  }

  lemma RewrittenLogIsSound(s: System, m: seq<Attempt>, added: seq<Attempt>, entry: seq<Event>)
    requires LogSound(s) && Continues(s.rows, m, added) && FreshKeys(added, s.issued)
    requires EntriesStored(s, m, entry)
    ensures LogSound(Rewritten(s, m, added, entry))
  {
    var n := Rewritten(s, m, added, entry);
    IssueSpec(s.issued, added);
    forall i | 0 <= i < |s.log| ensures EventRows(n, s.log[i]) && EventTicket(n, s.log[i]) {
      ContinuedEvents(s, m, added, n.issued, s.log[i]);
      assert EventTicket(s, s.log[i]);
    }
  }

  /** Evidence in a log stays when the log grows. */
  lemma LogGrows(s: System, n: System)
    requires Backed(s) && |s.log| <= |n.log| && n.log[..|s.log|] == s.log
    ensures forall j :: 0 <= j < |s.log| && s.log[j].Submitted? ==>
            SavedBefore(n.log, j, s.log[j].ticket, s.log[j].id, s.log[j].envelope)
    ensures forall k :: 0 <= k < |s.dispatches| && s.dispatches[k].phase.Holding? ==>
              SavedBefore(n.log, |s.log|, k, s.dispatches[k].id, s.dispatches[k].phase.envelope)
              && SavedBefore(n.log, |n.log|, k, s.dispatches[k].id, s.dispatches[k].phase.envelope)
    ensures forall j :: 0 <= j < |s.log| ==> n.log[j] == s.log[j]
  {
    assert forall j :: 0 <= j < |s.log| ==> n.log[j] == s.log[j];
  }

  // ----- Dispatches -----

  lemma RequestKeepsSound(s: System, id: string, mode: Mode, resend: bool)
    requires Sound(s)
    ensures Sound(Next(s, Request(id, mode, resend)))
  {
    var n := Next(s, Request(id, mode, resend));
    LogGrows(s, n);
    forall i | 0 <= i < |n.log| ensures EventRows(n, n.log[i]) && EventTicket(n, n.log[i]) {
      assert EventRows(s, s.log[i]) && EventTicket(s, s.log[i]);
    }
  }

  lemma DropKeepsSound(s: System, k: nat)
    requires Sound(s) && k < |s.dispatches| && !s.dispatches[k].phase.Sent?
    ensures Sound(s.(dispatches := s.dispatches[k := s.dispatches[k].(phase := Dropped)]))
  {
    var n := s.(dispatches := s.dispatches[k := s.dispatches[k].(phase := Dropped)]);
    LogGrows(s, n);
    forall i | 0 <= i < |n.log| ensures EventRows(n, n.log[i]) && EventTicket(n, n.log[i]) {
      assert EventRows(s, s.log[i]) && EventTicket(s, s.log[i]);
    }
  }

  lemma SubmitKeepsSound(s: System, k: nat)
    requires Sound(s) && k < |s.dispatches| && s.dispatches[k].phase.Holding?
    ensures Sound(Next(s, Submit(k)))
  {
    var n := Next(s, Submit(k));
    LogGrows(s, n);
    assert LogSound(n) by { SubmitLogIsSound(s, k); }
  }

  lemma SubmitLogIsSound(s: System, k: nat)
    requires LogSound(s) && k < |s.dispatches| && s.dispatches[k].phase.Holding?
    ensures LogSound(Next(s, Submit(k)))
  {
    var n := Next(s, Submit(k));
    forall i | 0 <= i < |s.log|
      ensures EventRows(n, s.log[i]) && EventTicket(n, s.log[i]) && Ordered(s.log[i], n.log[|s.log|])
    {
      assert EventRows(s, s.log[i]) && EventTicket(s, s.log[i]);
    }
  }

  /** The first freeze takes a draft nobody has frozen; any other one repeats the
      stored envelope on an explicit resend. */
  lemma FreezeIsNew(s: System, e: Event, d: Dispatch, gates: Gates, t: Clock, b: Attempt, j: nat)
    requires RowsSound(s) && EventRows(s, e) && j < |s.rows| && s.rows[j].id == d.id
    requires Follows(s.rows[j], b) && MayDispatch(Recover(s.rows[j], t.load), d.resend, gates)
    ensures e.Froze? && e.envelope.key == b.key ==> s.rows[j].state != Draft && b.envelope == Some(e.envelope)
    ensures e.Acknowledged? ==> e.key != b.key
  {
    assert InScope(s.rows[j], s.at.namespace, s.at.destination);
  }

  lemma TakenRow(s: System, d: Dispatch, b: Attempt, j: nat)
    requires RowsSound(s) && j < |s.rows| && s.rows[j].id == d.id && Follows(s.rows[j], b)
    ensures b.key in s.issued && s.issued[b.key] == d.id
    ensures IsDraft(s.rows, d.id) <==> s.rows[j].state == Draft
  {
    FindRowSpec(s.rows, d.id);
  }

  lemma TakeKeepsSound(s: System, k: nat, owner: string, gates: Gates, t: Clock)
    requires Sound(s) && k < |s.dispatches| && s.dispatches[k].phase.Waiting?
    ensures Sound(Next(s, Take(k, owner, gates, t)))
  {
    var n := TakeResult(s, k, FreezeFor(s, s.dispatches[k], owner, gates, t));
    assert Next(s, Take(k, owner, gates, t)) == n;
    assert Sound(n) by { TakeResultKeepsSound(s, k, owner, gates, t, FreezeFor(s, s.dispatches[k], owner, gates, t)); }
  }

  lemma TakeResultKeepsSound(s: System, k: nat, owner: string, gates: Gates, t: Clock,
                             r: Option<(Attempt, seq<Attempt>)>)
    requires Sound(s) && k < |s.dispatches| && s.dispatches[k].phase.Waiting?
    requires r == FreezeFor(s, s.dispatches[k], owner, gates, t)
    ensures Sound(TakeResult(s, k, r))
  {
    if r.None? {
      DropKeepsSound(s, k);
    } else {
      FrozenKeepsSound(s, k, owner, gates, t, r.value.0, r.value.1);
    }
  }

  lemma FrozenKeepsSound(s: System, k: nat, owner: string, gates: Gates, t: Clock, b: Attempt, m: seq<Attempt>)
    requires Sound(s) && k < |s.dispatches| && s.dispatches[k].phase.Waiting?
    requires var d := s.dispatches[k];
             Freeze(s.rows, s.at, d.id, owner, d.mode, d.resend, gates, t) == Some((b, m))
    ensures b.envelope.Some? && Sound(Taken(s, k, b.envelope.value, m))
  {
    var d := s.dispatches[k];
    FreezeSavesFrozenForm(s.rows, s.at, d.id, owner, d.mode, d.resend, gates, t, b, m);
    var j :| 0 <= j < |s.rows| && s.rows[j].id == d.id && Follows(s.rows[j], b)
             && MayDispatch(Recover(s.rows[j], t.load), d.resend, gates);
    TakenKeepsSound(s, k, gates, t, b, m, j);
  }

  lemma TakenKeepsSound(s: System, k: nat, gates: Gates, t: Clock, b: Attempt, m: seq<Attempt>, j: nat)
    requires Sound(s) && k < |s.dispatches| && s.dispatches[k].phase.Waiting? && j < |s.rows|
    requires s.rows[j].id == s.dispatches[k].id && Follows(s.rows[j], b)
             && MayDispatch(Recover(s.rows[j], t.load), s.dispatches[k].resend, gates)
    requires b.envelope.Some? && b.envelope.value.key == b.key && b in m
    requires Readable(m, s.at.namespace, s.at.destination) && Continues(s.rows, m, [])
    ensures Sound(Taken(s, k, b.envelope.value, m))
  {
    ContinuedRows(s, m, []);
    TakenLogIsSound(s, k, gates, t, b, m, j);
    TakenIsBacked(s, Taken(s, k, b.envelope.value, m), k);
  }

  lemma TakenLogIsSound(s: System, k: nat, gates: Gates, t: Clock, b: Attempt, m: seq<Attempt>, j: nat)
    requires RowsSound(s) && LogSound(s) && k < |s.dispatches| && s.dispatches[k].phase.Waiting? && j < |s.rows|
    requires s.rows[j].id == s.dispatches[k].id && Follows(s.rows[j], b)
             && MayDispatch(Recover(s.rows[j], t.load), s.dispatches[k].resend, gates)
    requires b.envelope.Some? && b.envelope.value.key == b.key && b in m && RowsSound(s.(rows := m))
             && Continues(s.rows, m, [])
    ensures LogSound(Taken(s, k, b.envelope.value, m))
  {
    var n := Taken(s, k, b.envelope.value, m);
    var d, e := s.dispatches[k], n.log[|s.log|];
    assert EventRows(n, e) && EventTicket(n, e) by {
      TakenRow(s, d, b, j);
      StoredByUniqueness(s.(rows := m), b);
    }
    forall i | 0 <= i < |s.log| ensures EventRows(n, s.log[i]) && EventTicket(n, s.log[i]) && Ordered(s.log[i], e) {
      TakenKeepsEvent(s, s.log[i], k, gates, t, b, m, j);
    }
  }

  lemma TakenKeepsEvent(s: System, f: Event, k: nat, gates: Gates, t: Clock, b: Attempt, m: seq<Attempt>, j: nat)
    requires RowsSound(s) && EventRows(s, f) && EventTicket(s, f) && k < |s.dispatches|
             && s.dispatches[k].phase.Waiting? && j < |s.rows|
    requires s.rows[j].id == s.dispatches[k].id && Follows(s.rows[j], b)
             && MayDispatch(Recover(s.rows[j], t.load), s.dispatches[k].resend, gates)
    requires b.envelope.Some? && b.envelope.value.key == b.key && Continues(s.rows, m, [])
    ensures var n := Taken(s, k, b.envelope.value, m);
            EventRows(n, f) && EventTicket(n, f) && Ordered(f, n.log[|s.log|])
  {
    ContinuedEvents(s, m, [], s.issued, f);
    FreezeIsNew(s, f, s.dispatches[k], gates, t, b, j);
    FindRowSpec(s.rows, s.dispatches[k].id);
  }

  lemma TakenIsBacked(s: System, n: System, k: nat)
    requires Backed(s) && k < |s.dispatches| && |n.log| == |s.log| + 1 && n.log[..|s.log|] == s.log
    requires var e := n.log[|s.log|];
             && e.Froze? && e.ticket == k && e.id == s.dispatches[k].id
             && n.dispatches == s.dispatches[k := s.dispatches[k].(phase := Holding(e.envelope))]
    ensures Backed(n)
  {
    LogGrows(s, n);
    var e := n.log[|s.log|];
    assert SavedBefore(n.log, |n.log|, k, e.id, e.envelope);
  }

  lemma StoredByUniqueness(s: System, b: Attempt)
    requires RowsSound(s) && b in s.rows && b.envelope.Some?
    ensures StoredAs(s.rows, b.key, b.envelope.value)
  {}

  lemma AskKeepsSound(s: System)
    requires Sound(s)
    ensures Sound(Next(s, AskImport))
  {
    var n := Next(s, AskImport);
    forall i | 0 <= i < |s.log| ensures EventRows(n, s.log[i]) && EventTicket(n, s.log[i]) {
      assert EventRows(s, s.log[i]) && EventTicket(s, s.log[i]);
    }
  }

  lemma StepKeepsSound(s: System, step: Step)
    requires Sound(s) && Allowed(s, step)
    ensures Sound(Next(s, step))
  {
    match step
    case Write(u, visible, t) => WriteKeepsSound(s, u, visible, t);
    case AskImport => AskKeepsSound(s);
    case Request(id, mode, resend) => RequestKeepsSound(s, id, mode, resend);
    case Take(k, owner, gates, t) =>
      if k < |s.dispatches| && s.dispatches[k].phase.Waiting? { TakeKeepsSound(s, k, owner, gates, t); }
    case Submit(k) =>
      if k < |s.dispatches| && s.dispatches[k].phase.Holding? { SubmitKeepsSound(s, k); }
    case Drop(k) =>
      if k < |s.dispatches| && !s.dispatches[k].phase.Sent? { DropKeepsSound(s, k); }
  }

  lemma {:induction false} RunKeepsSound(s: System, steps: seq<Step>)
    requires Sound(s) && Permits(s, steps)
    ensures Sound(Run(s, steps))
    decreases |steps|
  {
    if steps != [] {
      StepKeepsSound(s, steps[0]);
      RunKeepsSound(Next(s, steps[0]), steps[1..]);
    }
  }

  // ----- What every run keeps -----

  function SubmittedTickets(s: System, id: string): set<nat> {
    set i | 0 <= i < |s.log| && s.log[i].Submitted? && s.log[i].id == id :: s.log[i].ticket
  }

  function ResendTickets(s: System, id: string): set<nat> {
    set k | 0 <= k < |s.dispatches| && s.dispatches[k].id == id && s.dispatches[k].resend :: k
  }

  /** The keys an id was queued under. */
  function KeysOf(s: System, id: string): set<string> {
    set k | k in s.issued && s.issued[k] == id
  }

  ghost predicate IsFreezeOf(f: Event, e: Event) {
    e.Submitted? && f.Froze? && f.ticket == e.ticket && f.id == e.id && f.envelope == e.envelope
  }

  lemma FreezeOf(s: System, j: nat) returns (i: nat)
    requires Sound(s) && j < |s.log| && s.log[j].Submitted?
    ensures i < j && IsFreezeOf(s.log[i], s.log[j]) && EventTicket(s, s.log[i]) && EventTicket(s, s.log[j])
    ensures s.log[j].envelope.key in s.issued && s.issued[s.log[j].envelope.key] == s.log[j].id
  {
    var e := s.log[j];
    assert SavedBefore(s.log, j, e.ticket, e.id, e.envelope);
    i :| 0 <= i < j && IsFreezeOf(s.log[i], e);
    assert EventRows(s, s.log[i]);
  }

  /** Two submissions under one key belong to two dispatches, one of them an explicit
      resend, and carry the same envelope. */
  lemma SubmissionsDiffer(s: System, i: nat, j: nat)
    requires Sound(s) && i < |s.log| && j < |s.log| && i != j
    requires s.log[i].Submitted? && s.log[j].Submitted? && s.log[i].envelope.key == s.log[j].envelope.key
    ensures s.log[i].ticket != s.log[j].ticket && s.log[i].envelope == s.log[j].envelope
    ensures s.log[i].ticket < |s.dispatches| && s.log[j].ticket < |s.dispatches|
    ensures s.dispatches[s.log[i].ticket].resend || s.dispatches[s.log[j].ticket].resend
  {
    var a := FreezeOf(s, i);
    var b := FreezeOf(s, j);
    assert Ordered(s.log[i], s.log[j]) || Ordered(s.log[j], s.log[i]);
    if a < b { assert Ordered(s.log[a], s.log[b]); } else { assert Ordered(s.log[b], s.log[a]); }
  }

  /** Over every interleaving of any number of tabs, imports included: submissions
      under one idempotency key belong to different dispatches and carry one
      envelope; of two, one is an explicit resend. */
  lemma OneEnvelopePerKey(at: Place, steps: seq<Step>, i: nat, j: nat)
    requires Permits(Start(at), steps)
    requires var s := Run(Start(at), steps);
             && i < |s.log| && j < |s.log| && i != j && s.log[i].Submitted? && s.log[j].Submitted?
             && s.log[i].envelope.key == s.log[j].envelope.key
    ensures var s := Run(Start(at), steps);
            && s.log[i].id == s.log[j].id && s.log[i].envelope == s.log[j].envelope
            && s.log[i].ticket < |s.dispatches| && s.log[j].ticket < |s.dispatches|
               && s.log[i].ticket != s.log[j].ticket
            && (s.dispatches[s.log[i].ticket].resend || s.dispatches[s.log[j].ticket].resend)
  {
    RunKeepsSound(Start(at), steps);
    var s := Run(Start(at), steps);
    SubmissionsDiffer(s, i, j);
    var a := FreezeOf(s, i);
    var b := FreezeOf(s, j);
  }

  ghost predicate SentUnder(s: System, ticket: nat, id: string, key: string) {
    exists i :: 0 <= i < |s.log| && s.log[i].Submitted? && s.log[i].id == id && s.log[i].ticket == ticket
                && s.log[i].envelope.key == key
  }

  lemma FirstTicketsAgree(s: System, id: string, key: string, k: nat, l: nat)
    requires Sound(s) && SentUnder(s, k, id, key) && SentUnder(s, l, id, key)
    requires k !in ResendTickets(s, id) && l !in ResendTickets(s, id)
    ensures k == l
  {
    var i: nat :| i < |s.log| && s.log[i].Submitted? && s.log[i].id == id && s.log[i].ticket == k
                  && s.log[i].envelope.key == key;
    var j: nat :| j < |s.log| && s.log[j].Submitted? && s.log[j].id == id && s.log[j].ticket == l
                  && s.log[j].envelope.key == key;
    assert EventTicket(s, s.log[i]) && EventTicket(s, s.log[j]);
    if i != j { SubmissionsDiffer(s, i, j); }
  }

  /** Tickets that each belong to one of the keys, and no two to the same, are no
      more than the keys. */
  lemma {:induction false} TicketsPerKey(s: System, id: string, tickets: set<nat>, keys: set<string>)
    requires Sound(s)
    requires forall k :: k in tickets ==>
               k !in ResendTickets(s, id) && exists key :: key in keys && SentUnder(s, k, id, key)
    ensures |tickets| <= |keys|
    decreases |keys|
  {
    if tickets != {} {
      var k :| k in tickets;
      var key :| key in keys && SentUnder(s, k, id, key);
      forall l | l in tickets - {k} ensures exists other :: other in keys - {key} && SentUnder(s, l, id, other) {
        var other :| other in keys && SentUnder(s, l, id, other);
        if other == key { FirstTicketsAgree(s, id, key, k, l); }
      }
      TicketsPerKey(s, id, tickets - {k}, keys - {key});
    }
  }

  lemma SubmittedUnderKey(s: System, id: string, k: nat)
    requires Sound(s) && k in SubmittedTickets(s, id)
    ensures exists key :: key in KeysOf(s, id) && SentUnder(s, k, id, key)
  {
    var j: nat :| j < |s.log| && s.log[j].Submitted? && s.log[j].id == id && s.log[j].ticket == k;
    var i := FreezeOf(s, j);
    assert SentUnder(s, k, id, s.log[j].envelope.key);
  }

  /** Over every interleaving: an id is submitted at most once for every key it was
      queued under, and once more for every resend asked for. */
  lemma SubmittedAtMostOncePerKey(at: Place, steps: seq<Step>, id: string)
    requires Permits(Start(at), steps)
    ensures var s := Run(Start(at), steps);
            |SubmittedTickets(s, id)| <= |KeysOf(s, id)| + |ResendTickets(s, id)|
  {
    RunKeepsSound(Start(at), steps);
    var s := Run(Start(at), steps);
    var first := SubmittedTickets(s, id) - ResendTickets(s, id);
    forall k | k in first ensures exists key :: key in KeysOf(s, id) && SentUnder(s, k, id, key) {
      SubmittedUnderKey(s, id, k);
    }
    TicketsPerKey(s, id, first, KeysOf(s, id));
    SplitSize(SubmittedTickets(s, id), ResendTickets(s, id));
  }

  lemma SplitSize(a: set<nat>, b: set<nat>)
    ensures |a| <= |a - b| + |b|
  {
    assert a == (a - b) + (a * b);
    SubsetSize(a * b, b);
  }

  lemma SubsetSize<T>(a: set<T>, b: set<T>)
    requires a <= b
    ensures |a| <= |b|
  {
    assert b == a + (b - a);
  }

  // ----- One key per id -----

  /** No tab asks for an import while another one's is under way. */
  ghost predicate NoOverlap(s: System, steps: seq<Step>)
    decreases |steps|
  {
    steps == [] || ((steps[0].AskImport? ==> s.importers == 0) && NoOverlap(Next(s, steps[0]), steps[1..]))
  }

  /** Every id was queued under one key; nothing is imported before the mark is set,
      and no import is under way after it. */
  ghost predicate OncePerId(s: System) {
    && (forall k, l :: k in s.issued && l in s.issued && s.issued[k] == s.issued[l] ==> k == l)
    && s.importers <= 1 && (s.imported ==> s.importers == 0)
    && (!s.imported ==> forall k :: k in s.issued ==> !IsLegacy(s.issued[k]))
  }

  /** New rows whose ids were never used keep one key per id. */
  lemma IssueOnce(issued: map<string, string>, added: seq<Attempt>)
    requires FreshKeys(added, issued) && Unique(added) && forall a :: a in added ==> a.id !in issued.Values
    requires forall k, l :: k in issued && l in issued && issued[k] == issued[l] ==> k == l
    ensures var more := Issue(issued, added);
            forall k, l :: k in more && l in more && more[k] == more[l] ==> k == l
  {
    var more := Issue(issued, added);
    IssueSpec(issued, added);
    forall k, l | k in more && l in more && more[k] == more[l] ensures k == l {
      assert k in issued ==> more[k] in issued.Values;
      assert l in issued ==> more[l] in issued.Values;
    }
  }

  lemma CommittedOnce(s: System, u: Update, m: seq<Attempt>, added: seq<Attempt>, entry: seq<Event>)
    requires OncePerId(s) && FreshKeys(added, s.issued) && Unique(added)
    requires u.Import? ==> s.importers > 0 && forall a :: a in added ==> IsLegacy(a.id)
    requires !u.Import? ==> forall a :: a in added ==> !IsLegacy(a.id) && a.id !in s.issued.Values
    ensures OncePerId(AfterImport(Rewritten(s, m, added, entry), u, true))
  {
    forall a | a in added ensures a.id !in s.issued.Values {}
    IssueOnce(s.issued, added);
    IssueSpec(s.issued, added);
  }

  lemma WriteKeepsOnce(s: System, u: Update, visible: seq<Attempt>, t: Clock)
    requires Sound(s) && OncePerId(s) && Allowed(s, Write(u, visible, t))
    ensures OncePerId(Next(s, Write(u, visible, t)))
  {
    var r := Commit(s.rows, u, visible, s.at, t);
    if r.Some? {
      var added, entry := Added(u, Ids(s.rows)), Entry(u, Seen(s.rows, u, visible, t.load));
      var n := AfterImport(Rewritten(s, r.value, added, entry), u, true);
      assert OncePerId(n) by { AllowedOnce(s, u, visible, t, r.value, entry); }
      assert Next(s, Write(u, visible, t)) == n;
    } else {
      assert Next(s, Write(u, visible, t)) == AfterImport(s, u, false);
    }
  }

  lemma AllowedOnce(s: System, u: Update, visible: seq<Attempt>, t: Clock, m: seq<Attempt>, entry: seq<Event>)
    requires RowsSound(s) && OncePerId(s) && Allowed(s, Write(u, visible, t))
    ensures OncePerId(AfterImport(Rewritten(s, m, Added(u, Ids(s.rows)), entry), u, true))
  {
    AllowedIsAddable(s, u, visible, t);
    AddedIsNew(u, Ids(s.rows));
    if u.Import? { NotTakenSpec(u.items, Ids(s.rows)); }
    CommittedOnce(s, u, m, Added(u, Ids(s.rows)), entry);
  }

  lemma {:induction false} RunKeepsOnce(s: System, steps: seq<Step>)
    requires Sound(s) && OncePerId(s) && Permits(s, steps) && NoOverlap(s, steps)
    ensures OncePerId(Run(s, steps))
    decreases |steps|
  {
    if steps != [] {
      StepKeepsSound(s, steps[0]);
      if steps[0].Write? { WriteKeepsOnce(s, steps[0].update, steps[0].visible, steps[0].t); }
      assert OncePerId(Next(s, steps[0]));
      RunKeepsOnce(Next(s, steps[0]), steps[1..]);
    }
  }

  /** Unless two imports overlap, an attempt is submitted at most once more often
      than its resend was asked for. */
  lemma SubmittedAtMostOnce(at: Place, steps: seq<Step>, id: string)
    requires Permits(Start(at), steps) && NoOverlap(Start(at), steps)
    ensures var s := Run(Start(at), steps);
            |SubmittedTickets(s, id)| <= 1 + |ResendTickets(s, id)|
  {
    SubmittedAtMostOncePerKey(at, steps, id);
    RunKeepsOnce(Start(at), steps);
    AtMostOne(KeysOf(Run(Start(at), steps), id));
  }

  lemma AtMostOne<T>(elements: set<T>)
    requires forall k, l :: k in elements && l in elements ==> k == l
    ensures |elements| <= 1
  {
    if elements != {} {
      var k :| k in elements;
      assert elements == {k};
    }
  }

  /** Every submission follows the save of its frozen form. A dispatch that was
      not an explicit resend froze a draft: an automatic drain never sends an
      in-flight, rejected or unknown attempt. */
  lemma SubmissionFollowsSave(at: Place, steps: seq<Step>, j: nat) returns (i: nat)
    requires Permits(Start(at), steps)
    requires j < |Run(Start(at), steps).log| && Run(Start(at), steps).log[j].Submitted?
    ensures var s := Run(Start(at), steps);
            && i < j && IsFreezeOf(s.log[i], s.log[j]) && s.log[j].ticket < |s.dispatches|
            && (!s.dispatches[s.log[j].ticket].resend ==> s.log[i].fromDraft)
  {
    RunKeepsSound(Start(at), steps);
    i := FreezeOf(Run(Start(at), steps), j);
  }

  /** The gateway can tell attempts apart by their keys: two submissions carry the
      same idempotency key only if they are of the same attempt, and unless two
      imports overlap if and only if they are. */
  lemma KeysIdentifyAttempts(at: Place, steps: seq<Step>, i: nat, j: nat)
    requires Permits(Start(at), steps)
    requires i < |Run(Start(at), steps).log| && j < |Run(Start(at), steps).log|
    requires Run(Start(at), steps).log[i].Submitted? && Run(Start(at), steps).log[j].Submitted?
    ensures var e, f := Run(Start(at), steps).log[i], Run(Start(at), steps).log[j];
            && (e.envelope.key == f.envelope.key ==> e.id == f.id)
            && (NoOverlap(Start(at), steps) && e.id == f.id ==> e.envelope.key == f.envelope.key)
  {
    RunKeepsSound(Start(at), steps);
    var a := FreezeOf(Run(Start(at), steps), i);
    var b := FreezeOf(Run(Start(at), steps), j);
    if NoOverlap(Start(at), steps) { RunKeepsOnce(Start(at), steps); }
  }

  /** Once its acceptance is saved, an attempt is never frozen again, resend or not. */
  lemma AcceptedIsNeverResent(at: Place, steps: seq<Step>, i: nat, j: nat)
    requires Permits(Start(at), steps) && i < j < |Run(Start(at), steps).log|
    requires Run(Start(at), steps).log[i].Acknowledged? && Run(Start(at), steps).log[j].Froze?
    ensures Run(Start(at), steps).log[i].key != Run(Start(at), steps).log[j].envelope.key
  {
    RunKeepsSound(Start(at), steps);
    assert Ordered(Run(Start(at), steps).log[i], Run(Start(at), steps).log[j]);
  }

  /** In every reachable state the saved queue can be loaded, whatever the clock says. */
  lemma QueueStaysReadable(at: Place, steps: seq<Step>, now: int)
    requires Permits(Start(at), steps)
    ensures Load(Saved(Run(Start(at), steps).rows), at.namespace, at.destination, now).Some?
  {
    RunKeepsSound(Start(at), steps);
    PlaceStays(Start(at), steps);
  }

  lemma {:induction false} PlaceStays(s: System, steps: seq<Step>)
    ensures Run(s, steps).at == s.at
    decreases |steps|
  {
    if steps != [] { PlaceStays(Next(s, steps[0]), steps[1..]); }
  }
}
