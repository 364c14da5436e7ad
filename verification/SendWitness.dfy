/** Inputs on which the send queue does what one would not expect: two tabs that
    import the same older queue send one message twice, and a draft's error line
    is taken from a tab's own copy (console/src/ConsoleApp.tsx). */
module SendWitness {
  import opened Strings
  import opened Wrappers
  import opened SendAttempts
  import opened SendMerge
  import opened SendQueue
  import opened SendTabs

  const NOW := Clock(0, 0, 0)
  const OPEN := Gates(true, true, true, true)
  const RECEIPT := Receipt("i1", None)

  // ----- A queue of at most one row -----

  /** With no visible rows and no time passing, a proper update is committed as it is. */
  lemma CommitsUpdate(rows: seq<Attempt>, u: Update, at: Place, next: seq<Attempt>)
    requires Readable(rows, at.namespace, at.destination) && Recovered(rows, 0) == rows == Seen(rows, u, [], 0)
    requires Apply(u, rows) == Some(next) && Unique(next)
    requires forall i :: 0 <= i < |next| ==> Proper(rows, rows, next[i], at.namespace, at.destination)
    ensures exists m :: Commit(rows, u, [], at, NOW) == Some(m) && SameRows(rows, rows) && Written(rows, next, rows, m)
  {
    LockedSaveSucceeds(rows, next, rows, at.namespace, at.destination);
    var m := Save(rows, next, Some(rows), at.namespace, at.destination).value;
    LockedSaveIsUpdate(rows, next, rows, at.namespace, at.destination, m);
    assert Commit(rows, u, [], at, NOW) == Some(m);
  }

  lemma CommitsImport(item: Attempt, at: Place)
    requires InScope(item, at.namespace, at.destination)
    ensures Commit([], Import([item]), [], at, NOW) == Some([item])
  {
    var u := Import([item]);
    assert Ids([]) == [] && NotTaken([item], []) == [item] by { NothingTaken(item); }
    assert Apply(u, []) == Some([item]);
    assert Recovered([], 0) == [] == Seen([], u, [], 0);
    CommitsUpdate([], u, at, [item]);
    var m :| Commit([], u, [], at, NOW) == Some(m) && Written([], [item], [], m);
    assert WrittenRow([], [], [item][0], m[0]);
    assert m == [item];
  }

  /** A row that recovery leaves alone. */
  ghost predicate Steady(a: Attempt, at: Place) {
    InScope(a, at.namespace, at.destination) && Recover(a, 0) == a
  }

  lemma OneRow(a: Attempt, at: Place, u: Update)
    requires Steady(a, at)
    ensures Readable([a], at.namespace, at.destination) && Recovered([a], 0) == [a] == Seen([a], u, [], 0)
    ensures FindRow([a], a.id) == Some(a)
  {
    assert FindRow([], a.id) == None;
    assert Seen([a], u, [], 0)[0] == a;
  }

  lemma CommitsDiscard(a: Attempt, at: Place)
    requires Steady(a, at)
    ensures Commit([a], Discard(a.id), [], at, NOW) == Some([])
  {
    var u := Discard(a.id);
    OneRow(a, at, u);
    assert [a][..0] == [] && Without([], a.id) == [] && Without([a], a.id) == [];
    CommitsUpdate([a], u, at, []);
    var m :| Commit([a], u, [], at, NOW) == Some(m) && Written([a], [], [a], m);
    assert m == [];
  }

  lemma CommitsAcceptance(a: Attempt, at: Place)
    requires Steady(a, at) && a.state == Attempting && ProvesAcceptance(RECEIPT)
    ensures var b := a.(state := Accepted, lease := None, error := None, failureKind := None,
                        accepted := Some(RECEIPT));
            Steady(b, at) && Commit([a], Settle(a.id, Delivered(RECEIPT)), [], at, NOW) == Some([b])
  {
    var u := Settle(a.id, Delivered(RECEIPT));
    var b := a.(state := Accepted, lease := None, error := None, failureKind := None, accepted := Some(RECEIPT));
    OneRow(a, at, u);
    FinishSettles(a, u.outcome);
    assert Replaced([a], a.id, b) == [b];
    ProperAt([a], [a], b, at.namespace, at.destination, 0);
    CommitsUpdate([a], u, at, [b]);
    var m :| Commit([a], u, [], at, NOW) == Some(m) && Written([a], [b], [a], m);
    assert WrittenRow([a], [a], [b][0], m[0]);
    assert m == [b];
  }

  lemma FreezesDraft(a: Attempt, at: Place) returns (b: Attempt)
    requires Steady(a, at) && a.state == Draft && NonBlank("tab")
    ensures Freeze([a], at, a.id, "tab", Queue, false, OPEN, NOW) == Some((b, [b]))
    ensures Steady(b, at) && b.state == Attempting && b.id == a.id && b.key == a.key
    ensures b.envelope.Some? && b.envelope.value.key == a.key
  {
    OneRow(a, at, Discard(a.id));
    FreezeSucceedsIff([a], at, a.id, "tab", Queue, false, OPEN, NOW, 0);
    var frozen := Freeze([a], at, a.id, "tab", Queue, false, OPEN, NOW).value;
    var m := frozen.1;
    b := frozen.0;
    FreezeSavesFrozenForm([a], at, a.id, "tab", Queue, false, OPEN, NOW, b, m);
    assert |Ids(m)| == 1 && m == [b];
    BeginFreezes(a, "tab", 0, Queue, false, false);
    assert InScope(m[0], at.namespace, at.destination);
  }

  /** An edited draft is stored with the error line of the tab's copy. (No draft of the
      console has one.) */
  lemma DraftErrorIsStored(d: Attempt, text: string, note: Note, at: Place)
    requires Steady(d, at) && d.state == Draft && d.error.None? && NonBlank(text) && text != d.text
    ensures var copy := d.(error := Some(note));
            Commit([d], EditText(d.id, text), [copy], at, NOW) == Some([d.(text := text, error := Some(note))])
  {
    var copy, u := d.(error := Some(note)), EditText(d.id, text);
    var b := copy.(text := text);
    OneRow(d, at, u);
    assert Seen([d], u, [copy], 0) == [copy] by { assert FindRow([copy], d.id) == Some(copy); }
    assert Apply(u, [copy]) == Some([b]) by { assert Replaced([copy], d.id, b) == [b]; }
    ProperAt([d], [copy], b, at.namespace, at.destination, 0);
    LockedSaveSucceeds([d], [b], [copy], at.namespace, at.destination);
    var m := Save([d], [b], Some([copy]), at.namespace, at.destination).value;
    LockedSaveIsUpdate([d], [b], [copy], at.namespace, at.destination, m);
    assert WrittenRow([d], [copy], [b][0], m[0]);
    assert m == [b];
  }

  // ----- One tab imports, sends, records the acceptance and removes the row -----

  /** Start of a round: nothing queued, a tab about to import, the key new. */
  ghost predicate Ready(s: System, item: Attempt) {
    && s.rows == [] && s.importers > 0
    && Steady(item, s.at) && item.state == Draft && IsLegacy(item.id) && item.key !in s.issued
  }

  lemma NothingTaken(item: Attempt)
    ensures NotTaken([item], []) == [item]
  {
    assert [item][..0] == [] && NotTaken([], []) == [];
  }

  lemma OneIssued(issued: map<string, string>, item: Attempt)
    ensures Issue(issued, [item]) == issued[item.key := item.id]
  {
    assert [item][..0] == [] && Issue(issued, []) == issued;
  }

  function AfterImportOf(s: System, item: Attempt): System
    requires s.importers > 0
  {
    s.(rows := [item], issued := s.issued[item.key := item.id], imported := true, importers := s.importers - 1)
  }

  lemma ImportIsAllowed(s: System, item: Attempt)
    requires Ready(s, item)
    ensures Allowed(s, Write(Import([item]), [], NOW))
  {}

  lemma ImportIsRewritten(s: System, item: Attempt)
    requires Ready(s, item)
    ensures AfterImport(Rewritten(s, [item], [item], []), Import([item]), true) == AfterImportOf(s, item)
  {
    OneIssued(s.issued, item);
    assert s.log + [] == s.log;
  }

  lemma ImportStep(s: System, item: Attempt)
    requires Ready(s, item)
    ensures Next(s, Write(Import([item]), [], NOW)) == AfterImportOf(s, item)
  {
    var u := Import([item]);
    CommitsImport(item, s.at);
    assert Added(u, Ids(s.rows)) == [item] by { NothingTaken(item); }
    ImportIsRewritten(s, item);
  }

  /** The row has been asked for, frozen as `b` and handed to the wire. */
  ghost function Submitting(s: System, b: Attempt): System
    requires b.envelope.Some?
  {
    var k, e := |s.dispatches|, b.envelope.value;
    s.(rows := [b], dispatches := s.dispatches + [Dispatch(b.id, Queue, false, Sent)],
       log := s.log + [Froze(k, b.id, e, true), Submitted(k, b.id, e)])
  }

  lemma TakeStep(s: System, item: Attempt) returns (b: Attempt)
    requires s.rows == [item] && Steady(item, s.at) && item.state == Draft && NonBlank("tab")
    ensures Steady(b, s.at) && b.state == Attempting && b.id == item.id && b.key == item.key && b.envelope.Some?
    ensures var k := |s.dispatches|;
            var asked := s.(dispatches := s.dispatches + [Dispatch(item.id, Queue, false, Waiting)]);
            Next(asked, Take(k, "tab", OPEN, NOW)) == Taken(asked, k, b.envelope.value, [b])
            && IsDraft(asked.rows, item.id)
  {
    b := FreezesDraft(item, s.at);
    var asked := s.(dispatches := s.dispatches + [Dispatch(item.id, Queue, false, Waiting)]);
    assert IsDraft(asked.rows, item.id) by { OneRow(item, s.at, Discard(item.id)); }
    TakeIsFreeze(asked, |s.dispatches|, "tab", OPEN, NOW);
    FrozenIsTaken(asked, |s.dispatches|, b, [b]);
  }

  lemma SubmitStep(s: System, item: Attempt, b: Attempt)
    requires b.envelope.Some? && b.id == item.id && IsDraft(s.rows, item.id)
    ensures var k := |s.dispatches|;
            var asked := s.(dispatches := s.dispatches + [Dispatch(item.id, Queue, false, Waiting)]);
            Next(Taken(asked, k, b.envelope.value, [b]), Submit(k)) == Submitting(s, b)
  {
    var k, e := |s.dispatches|, b.envelope.value;
    var asked := s.(dispatches := s.dispatches + [Dispatch(item.id, Queue, false, Waiting)]);
    var sent := Next(Taken(asked, k, e, [b]), Submit(k));
    assert sent.log == s.log + [Froze(k, b.id, e, true), Submitted(k, b.id, e)];
    assert sent.dispatches == s.dispatches + [Dispatch(b.id, Queue, false, Sent)];
  }

  lemma AcceptStep(s: System, b: Attempt)
    requires s.rows == [b] && Steady(b, s.at) && b.state == Attempting && ProvesAcceptance(RECEIPT)
    ensures var n := Next(s, Write(Settle(b.id, Delivered(RECEIPT)), [], NOW));
            && n == s.(rows := n.rows, log := s.log + [Acknowledged(b.key)])
            && |n.rows| == 1 && Steady(n.rows[0], s.at) && n.rows[0].id == b.id
  {
    CommitsAcceptance(b, s.at);
    OneRow(b, s.at, Settle(b.id, Delivered(RECEIPT)));
    assert Issue(s.issued, []) == s.issued;
  }

  lemma RemoveStep(s: System, b: Attempt)
    requires s.rows == [b] && Steady(b, s.at)
    ensures Next(s, Write(Discard(b.id), [], NOW)) == s.(rows := [])
  {
    CommitsDiscard(b, s.at);
    assert Issue(s.issued, []) == s.issued && s.log + [] == s.log;
  }

  function Sending(id: string, k: nat): seq<Step> {
    [Request(id, Queue, false), Take(k, "tab", OPEN, NOW), Submit(k)]
  }

  function Removing(id: string): seq<Step> {
    [Write(Settle(id, Delivered(RECEIPT)), [], NOW), Write(Discard(id), [], NOW)]
  }

  function Round(item: Attempt, k: nat): seq<Step> {
    [Write(Import([item]), [], NOW)] + Sending(item.id, k) + Removing(item.id)
  }

  lemma RunCons(s: System, step: Step, rest: seq<Step>)
    ensures Run(s, [step] + rest) == Run(Next(s, step), rest)
    ensures Permits(s, [step] + rest) <==> Allowed(s, step) && Permits(Next(s, step), rest)
  {
    assert ([step] + rest)[1..] == rest;
  }

  lemma {:induction false} WithConcat(next: (System, Step) -> System, allowed: (System, Step) -> bool,
                                      s: System, a: seq<Step>, b: seq<Step>)
    ensures RunWith(next, s, a + b) == RunWith(next, RunWith(next, s, a), b)
    ensures PermitsWith(next, allowed, s, a) && PermitsWith(next, allowed, RunWith(next, s, a), b)
            ==> PermitsWith(next, allowed, s, a + b)
    decreases |a|
  {
    if a == [] {
      assert a + b == b;
    } else {
      WithConcat(next, allowed, next(s, a[0]), a[1..], b);
      assert (a + b)[1..] == a[1..] + b && (a + b)[0] == a[0];
    }
  }

  lemma RunConcat(s: System, a: seq<Step>, b: seq<Step>)
    ensures Run(s, a + b) == Run(Run(s, a), b)
    ensures Permits(s, a) && Permits(Run(s, a), b) ==> Permits(s, a + b)
  {
    WithConcat(Next, Allowed, s, a, b);
  }

  lemma RunsSending(s: System, item: Attempt) returns (b: Attempt)
    requires s.rows == [item] && Steady(item, s.at) && item.state == Draft && NonBlank("tab")
    ensures Steady(b, s.at) && b.state == Attempting && b.id == item.id && b.key == item.key && b.envelope.Some?
    ensures var steps := Sending(item.id, |s.dispatches|);
            Permits(s, steps) && Run(s, steps) == Submitting(s, b)
  {
    b := TakeStep(s, item);
    SubmitStep(s, item, b);
    var k := |s.dispatches|;
    var request, take, submit := Request(item.id, Queue, false), Take(k, "tab", OPEN, NOW), Submit(k);
    var asked := Next(s, request);
    var taken := Next(asked, take);
    RunCons(taken, submit, []);
    RunCons(asked, take, [submit] + []);
    RunCons(s, request, [take] + ([submit] + []));
    assert Sending(item.id, k) == [request] + ([take] + ([submit] + []));
  }

  lemma RunsRemoving(s: System, b: Attempt)
    requires s.rows == [b] && Steady(b, s.at) && b.state == Attempting && ProvesAcceptance(RECEIPT)
    ensures Permits(s, Removing(b.id))
    ensures Run(s, Removing(b.id)) == s.(rows := [], log := s.log + [Acknowledged(b.key)])
  {
    AcceptStep(s, b);
    var settle, discard := Write(Settle(b.id, Delivered(RECEIPT)), [], NOW), Write(Discard(b.id), [], NOW);
    var settled := Next(s, settle);
    RemoveStep(settled, settled.rows[0]);
    RunCons(settled, discard, []);
    RunCons(s, settle, [discard] + []);
    assert Removing(b.id) == [settle] + ([discard] + []);
  }

  /** What a round leaves: an empty queue, the mark set, and one more submission. */
  ghost predicate AfterRound(s: System, n: System, item: Attempt) {
    && n.at == s.at && n.rows == [] && n.imported && n.importers == s.importers - 1
    && n.issued == s.issued[item.key := item.id]
    && n.dispatches == s.dispatches + [Dispatch(item.id, Queue, false, Sent)]
    && exists e :: RoundLog(s, n, item, e)
  }

  ghost predicate RoundLog(s: System, n: System, item: Attempt, e: Envelope) {
    var k := |s.dispatches|;
    n.log == s.log + [Froze(k, item.id, e, true), Submitted(k, item.id, e), Acknowledged(item.key)]
  }

  lemma RoundLeaves(s: System, item: Attempt, b: Attempt)
    requires s.importers > 0 && b.envelope.Some? && b.id == item.id && b.key == item.key
    ensures var sent := Submitting(AfterImportOf(s, item), b);
            AfterRound(s, sent.(rows := [], log := sent.log + [Acknowledged(b.key)]), item)
  {
    var sent := Submitting(AfterImportOf(s, item), b);
    assert RoundLog(s, sent.(rows := [], log := sent.log + [Acknowledged(b.key)]), item, b.envelope.value);
  }

  lemma RoundSends(s: System, item: Attempt)
    requires Ready(s, item) && NonBlank("tab") && ProvesAcceptance(RECEIPT)
    ensures Permits(s, Round(item, |s.dispatches|)) && AfterRound(s, Run(s, Round(item, |s.dispatches|)), item)
  {
    var k, take := |s.dispatches|, Write(Import([item]), [], NOW);
    ImportIsAllowed(s, item);
    ImportStep(s, item);
    var queued := AfterImportOf(s, item);
    RunCons(s, take, []);
    assert [take] + [] == [take];
    var b := RunsSending(queued, item);
    RunConcat(s, [take], Sending(item.id, k));
    RunsRemoving(Submitting(queued, b), b);
    RunConcat(s, [take] + Sending(item.id, k), Removing(item.id));
    RoundLeaves(s, item, b);
  }

  // ----- Two tabs -----

  const HERE := Place("ns", "agent")

  /** The older row "legacy:1" as an import queues it, under the given key. */
  function Imported(key: string): Attempt {
    Attempt("legacy:1", "ns", "agent", "console:legacy-import", key, "hello", [], 0, Draft, None, None, None, None,
            None)
  }

  /** Both tabs ask; then each imports the row under its own key, and sends it. */
  function TwoImports(a: Attempt, b: Attempt): seq<Step> {
    [AskImport, AskImport] + Round(a, 0) + Round(b, 1)
  }

  /** A plain draft is well formed when its texts are not blank. */
  lemma PlainDraftIsSteady(a: Attempt, at: Place)
    requires a.state == Draft && a.envelope.None? && a.lease.None? && a.failureKind.None? && a.accepted.None?
    requires NonBlank(a.id) && NonBlank(a.scope) && NonBlank(a.destination) && NonBlank(a.origin) && NonBlank(a.key)
    requires NonBlank(a.text) && a.scope == at.namespace && a.destination == at.destination
    ensures Steady(a, at)
  {}

  lemma ImportedIsSteady(key: string)
    requires NonBlank(key)
    ensures Steady(Imported(key), HERE) && IsLegacy(Imported(key).id)
  {
    assert NonBlank("ns") && NonBlank("agent") && NonBlank("hello") by { SampleTexts(); }
    LegacyTexts();
    PlainDraftIsSteady(Imported(key), HERE);
  }

  lemma LegacyTexts()
    ensures NonBlank("legacy:1") && NonBlank("console:legacy-import") && IsLegacy("legacy:1")
  {
    TrimFixed("legacy:1");
    TrimFixed("console:legacy-import");
    assert "legacy:1"[..7] == "legacy:";
  }

  lemma BothAsk(s: System)
    requires !s.imported
    ensures Permits(s, [AskImport, AskImport]) && Run(s, [AskImport, AskImport]) == s.(importers := s.importers + 2)
  {
    var one := Next(s, AskImport);
    RunCons(one, AskImport, []);
    RunCons(s, AskImport, [AskImport] + []);
    assert [AskImport, AskImport] == [AskImport] + ([AskImport] + []);
  }

  /** Any older row imported twice under two keys, once by each tab. */
  lemma RunsTwice(at: Place, a: Attempt, b: Attempt) returns (once: System)
    requires Steady(a, at) && a.state == Draft && IsLegacy(a.id) && b == a.(key := b.key) && b.key != a.key
    requires Steady(b, at) && NonBlank("tab") && ProvesAcceptance(RECEIPT)
    ensures Permits(Start(at), TwoImports(a, b))
    ensures AfterRound(Start(at).(importers := 2), once, a)
    ensures AfterRound(once, Run(Start(at), TwoImports(a, b)), b)
  {
    var start, ask := Start(at), [AskImport, AskImport];
    BothAsk(start);
    var asked := start.(importers := 2);
    RoundSends(asked, a);
    once := Run(asked, Round(a, 0));
    RoundSends(once, b);
    RunConcat(start, ask, Round(a, 0));
    RunConcat(start, ask + Round(a, 0), Round(b, 1));
  }

  lemma TwiceSubmitted(at: Place, once: System, twice: System, a: Attempt, b: Attempt)
    requires AfterRound(Start(at).(importers := 2), once, a) && AfterRound(once, twice, b)
    requires b == a.(key := b.key) && b.key != a.key
    ensures SubmittedTickets(twice, a.id) == {0, 1} && ResendTickets(twice, a.id) == {}
            && KeysOf(twice, a.id) == {a.key, b.key}
  {
    assert |once.log| == 3 && |twice.log| == 6;
    assert twice.log[1].Submitted? && twice.log[4].Submitted? && twice.log[1].ticket == 0 && twice.log[4].ticket == 1;
    assert twice.log[0].Froze? && twice.log[2].Acknowledged? && twice.log[3].Froze? && twice.log[5].Acknowledged?;
  }

  /** Two tabs find the mark missing; one imports, sends and removes the message, then
      the other does. No step is refused, no resend is asked for, and the message
      is submitted twice, under two keys. So for every older row and any two keys. */
  lemma OverlappingImportsSendTwice(at: Place, a: Attempt, b: Attempt)
    requires Steady(a, at) && a.state == Draft && IsLegacy(a.id)
    requires Steady(b, at) && b == a.(key := b.key) && b.key != a.key
    ensures Permits(Start(at), TwoImports(a, b))
    ensures var s := Run(Start(at), TwoImports(a, b));
            && SubmittedTickets(s, a.id) == {0, 1} && ResendTickets(s, a.id) == {}
            && KeysOf(s, a.id) == {a.key, b.key}
  {
    OwnTexts();
    var once := RunsTwice(at, a, b);
    TwiceSubmitted(at, once, Run(Start(at), TwoImports(a, b)), a, b);
  }

  /** Such a row: "legacy:1", imported under "k1" and "k2". */
  lemma ImportedTwice()
    ensures Permits(Start(HERE), TwoImports(Imported("k1"), Imported("k2")))
    ensures var s := Run(Start(HERE), TwoImports(Imported("k1"), Imported("k2")));
            SubmittedTickets(s, "legacy:1") == {0, 1} && ResendTickets(s, "legacy:1") == {}
  {
    SampleTexts();
    SecondKey();
    ImportedIsSteady("k1");
    ImportedIsSteady("k2");
    OverlappingImportsSendTwice(HERE, Imported("k1"), Imported("k2"));
  }

  lemma OwnTexts()
    ensures NonBlank("tab") && ProvesAcceptance(RECEIPT)
  {
    SampleTexts();
  }

  lemma SecondKey()
    ensures NonBlank("k2") && "k1" != "k2"
  {
    TrimFixed("k2");
    assert "k1"[1] != "k2"[1];
  }
}
