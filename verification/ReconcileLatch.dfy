/** The latch that bounds system reconcile requests of the flow editor
    (flow-editor/src/app.tsx): a few attempts per intent and edit epoch, then a
    pause until the next real edit. */
module ReconcileLatch {
  import opened Wrappers

  const MAX_ATTEMPTS: nat := 4

  datatype Latch = Latch(epoch: nat, failureEpoch: Option<nat>, attemptsEpoch: Option<nat>, counts: map<string, nat>)

  const FRESH_LATCH := Latch(0, None, None, map[])

  predicate Latched(s: Latch) {
    s.failureEpoch == Some(s.epoch)
  }

  /** Attempts of an intent that count in the current epoch. */
  function Count(s: Latch, intent: string): nat {
    if s.attemptsEpoch == Some(s.epoch) && intent in s.counts then s.counts[intent] else 0
  }

  // ----- The functions as state changes -----

  function ShouldRun(s: Latch, intent: string): (Latch, bool) {
    if Latched(s) then (s, false)
    else
      var counts := if s.attemptsEpoch == Some(s.epoch) then s.counts else map[];
      var n := (if intent in counts then counts[intent] else 0) + 1;
      var t := s.(attemptsEpoch := Some(s.epoch), counts := counts[intent := n]);
      if n > MAX_ATTEMPTS then (t.(failureEpoch := Some(s.epoch)), false) else (t, true)
  }

  function MarkConverged(s: Latch, intent: string): Latch {
    if s.attemptsEpoch == Some(s.epoch) then s.(counts := s.counts[intent := 0]) else s
  }

  /** A settled request; `rejected` when the server validated a document and refused it. */
  function LatchFailure(s: Latch, epochAtIssue: nat, rejected: bool): Latch {
    if rejected && s.epoch == epochAtIssue then s.(failureEpoch := Some(epochAtIssue)) else s
  }

  /** Edit: a real edit or a document load. Effect: one gated effect ran and found
      something to change, or nothing. Settle: a result came back. */
  datatype Event =
    | Edit
    | Effect(intent: string, changed: bool)
    | Settle(epochAtIssue: nat, rejected: bool)

  function Step(s: Latch, e: Event): Latch {
    match e
    case Edit => s.(epoch := s.epoch + 1)
    case Effect(intent, changed) => if changed then ShouldRun(s, intent).0 else MarkConverged(s, intent)
    case Settle(epochAtIssue, rejected) => LatchFailure(s, epochAtIssue, rejected)
  }

  /** The event sends a request for `intent`. */
  predicate Issues(s: Latch, e: Event, intent: string) {
    e.Effect? && e.intent == intent && e.changed && ShouldRun(s, intent).1
  }

  function Run(s: Latch, events: seq<Event>): Latch
    decreases |events|
  {
    if events == [] then s else Run(Step(s, events[0]), events[1..])
  }

  function IssueCount(s: Latch, events: seq<Event>, intent: string): nat
    decreases |events|
  {
    if events == [] then 0
    else IssueCount(Step(s, events[0]), events[1..], intent) + if Issues(s, events[0], intent) then 1 else 0
  }

  ghost predicate NoEdit(events: seq<Event>) {
    forall e :: e in events ==> !e.Edit?
  }

  ghost predicate NoConvergence(events: seq<Event>, intent: string) {
    forall e :: e in events ==> !(e.Effect? && e.intent == intent && !e.changed)
  }

  function Budget(s: Latch, intent: string): nat {
    if Latched(s) || Count(s, intent) >= MAX_ATTEMPTS then 0 else MAX_ATTEMPTS - Count(s, intent)
  }

  /** Each request spends one attempt; nothing but an edit or a convergence gives any back. */
  lemma StepSpendsBudget(s: Latch, e: Event, intent: string)
    requires !e.Edit? && !(e.Effect? && e.intent == intent && !e.changed)
    ensures Budget(Step(s, e), intent) + (if Issues(s, e, intent) then 1 else 0) <= Budget(s, intent)
  {}

  /** Within an epoch, an intent is requested at most four times between convergences. */
  lemma {:induction false} AttemptsAreBounded(s: Latch, events: seq<Event>, intent: string)
    requires NoEdit(events) && NoConvergence(events, intent)
    ensures IssueCount(s, events, intent) <= Budget(s, intent) <= MAX_ATTEMPTS
    decreases |events|
  {
    if events != [] {
      assert events[0] in events && forall e :: e in events[1..] ==> e in events;
      StepSpendsBudget(s, events[0], intent);
      AttemptsAreBounded(Step(s, events[0]), events[1..], intent);
    }
  }

  /** Once latched, nothing is requested until the next edit, whatever converges or settles. */
  lemma {:induction false} LatchHolds(s: Latch, events: seq<Event>, intent: string)
    requires Latched(s) && NoEdit(events)
    ensures IssueCount(s, events, intent) == 0 && Latched(Run(s, events))
    decreases |events|
  {
    if events != [] {
      assert events[0] in events && forall e :: e in events[1..] ==> e in events;
      LatchHolds(Step(s, events[0]), events[1..], intent);
    }
  }

  /** A fifth attempt latches every intent, not only its own. */
  lemma OverrunLatches(s: Latch, intent: string)
    requires !Latched(s)
    ensures Latched(Step(s, Effect(intent, true))) <==> Count(s, intent) >= MAX_ATTEMPTS
    ensures Issues(s, Effect(intent, true), intent) <==> Count(s, intent) < MAX_ATTEMPTS
  {}

  /** Neither the latch nor the attempt counts refer to a later epoch. */
  ghost predicate Sound(s: Latch) {
    && (s.failureEpoch.Some? ==> s.failureEpoch.value <= s.epoch)
    && (s.attemptsEpoch.Some? ==> s.attemptsEpoch.value <= s.epoch)
  }

  lemma {:induction false} RunIsSound(s: Latch, events: seq<Event>)
    requires Sound(s)
    ensures Sound(Run(s, events)) && Run(s, events).epoch >= s.epoch
    decreases |events|
  {
    if events != [] { RunIsSound(Step(s, events[0]), events[1..]); }
  }

  /** After any history an edit releases the latch and renews every attempt. */
  lemma EditReleases(events: seq<Event>, intent: string)
    ensures var s := Step(Run(FRESH_LATCH, events), Edit); !Latched(s) && Budget(s, intent) == MAX_ATTEMPTS
  {
    RunIsSound(FRESH_LATCH, events);
  }

  /** A result issued in an older epoch cannot latch the current one. */
  lemma StaleResultIsIgnored(s: Latch, epochAtIssue: nat, rejected: bool)
    requires epochAtIssue != s.epoch
    ensures Step(s, Settle(epochAtIssue, rejected)) == s
  {}

  // ----- The refs the editor mutates -----

  class Reconciler {
    var epoch: nat
    var failureEpoch: Option<nat>
    var attemptsEpoch: Option<nat>
    var counts: map<string, nat>

    ghost function Abs(): Latch
      reads this
    {
      Latch(epoch, failureEpoch, attemptsEpoch, counts)
    }

    constructor ()
      ensures Abs() == FRESH_LATCH
    {
      epoch, failureEpoch, attemptsEpoch, counts := 0, None, None, map[];
    }

    method AdvanceEpoch()
      modifies this`epoch
      ensures Abs() == Step(old(Abs()), Edit)
    {
      epoch := epoch + 1;
    }

    method ReconcileShouldRun(intent: string) returns (run: bool)
      modifies this
      ensures (Abs(), run) == ShouldRun(old(Abs()), intent)
      ensures run ==> 0 < Count(Abs(), intent) <= MAX_ATTEMPTS && !Latched(Abs())
    {
      if failureEpoch == Some(epoch) {
        return false;
      }
      if attemptsEpoch != Some(epoch) {
        attemptsEpoch, counts := Some(epoch), map[];
      }
      counts := counts[intent := (if intent in counts then counts[intent] else 0) + 1];
      if counts[intent] > MAX_ATTEMPTS {
        failureEpoch := Some(epoch);
        return false;
      }
      run := true;
    }

    method MarkReconcileConverged(intent: string)
      modifies this`counts
      ensures Abs() == MarkConverged(old(Abs()), intent)
    {
      if attemptsEpoch == Some(epoch) {
        counts := counts[intent := 0];
      }
    }

    method LatchReconcileFailure(epochAtIssue: nat, rejected: bool)
      modifies this`failureEpoch
      ensures Abs() == LatchFailure(old(Abs()), epochAtIssue, rejected)
    {
      if rejected && epoch == epochAtIssue {
        failureEpoch := Some(epochAtIssue);
      }
    }

    /** One gated effect: converge, or ask to reconcile; `issued` when a request goes out. */
    method ReconcileEffect(intent: string, changed: bool) returns (issued: bool)
      modifies this
      ensures Abs() == Step(old(Abs()), Effect(intent, changed))
      ensures issued == Issues(old(Abs()), Effect(intent, changed), intent)
    {
      if !changed {
        MarkReconcileConverged(intent);
        return false;
      }
      issued := ReconcileShouldRun(intent);
    }
  }
}
