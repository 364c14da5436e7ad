/** The per-identity frame store (console/src/lib/identity-log.ts): `events` in
    arrival order, a key index into it, and a cached transcript-order view kept
    up to date by append, in-place update and trim. */
module IdentityLog {
  import opened Wrappers
  import opened Frames
  import opened Transcript

  datatype Log = Log(events: seq<Frame>, byKey: map<string, nat>, version: nat, sorted: Option<seq<Frame>>)

  const EMPTY_LOG := Log([], map[], 0, None)

  function Keys(events: seq<Frame>): (keys: seq<string>)
    ensures |keys| == |events|
    ensures forall i :: 0 <= i < |events| ==> keys[i] == FrameKey(events[i])
  {
    seq(|events|, i requires 0 <= i < |events| => FrameKey(events[i]))
  }

  /** `byKey` maps each key to its one position and holds nothing else. */
  ghost predicate Inverse(keys: seq<string>, byKey: map<string, nat>) {
    && (forall i :: 0 <= i < |keys| ==> keys[i] in byKey && byKey[keys[i]] == i)
    && (forall k :: k in byKey ==> byKey[k] < |keys| && keys[byKey[k]] == k)
  }

  /** The key index is the exact inverse of `events` under `FrameKey`. */
  ghost predicate Indexed(events: seq<Frame>, byKey: map<string, nat>) {
    Inverse(Keys(events), byKey)
  }

  /** What every log satisfies: an exact index, and a cached view that is the transcript. */
  ghost predicate Sound(s: Log) {
    && Indexed(s.events, s.byKey)
    && (s.sorted.Some? ==> Faithful(s.events, s.sorted.value))
  }

  lemma IndexedIsDistinct(events: seq<Frame>, byKey: map<string, nat>)
    requires Indexed(events, byKey)
    ensures Distinct(events) && Distinct(Keys(events))
  {
    var keys := Keys(events);
    forall i, j | 0 <= i < j < |keys| ensures keys[i] != keys[j] && events[i] != events[j] {
      assert byKey[keys[i]] == i && byKey[keys[j]] == j;
    }
  }

  // ----- Append -----

  /** Where the binary search over `sorted[lo..hi]` puts the frame. */
  function SearchSlot(sorted: seq<Frame>, frame: Frame, lo: nat, hi: nat): (at: nat)
    requires lo <= hi <= |sorted|
    ensures lo <= at <= hi
    decreases hi - lo
  {
    if lo == hi then lo
    else
      var mid := (lo + hi) / 2;
      if TranscriptOrder(sorted[mid], 0, frame, 1) <= 0
      then SearchSlot(sorted, frame, mid + 1, hi)
      else SearchSlot(sorted, frame, lo, mid)
  }

  /** The binary search finds the split point whenever there is one. */
  lemma {:induction false} SearchFindsSplit(sorted: seq<Frame>, frame: Frame, lo: nat, hi: nat, at: nat)
    requires lo <= at <= hi <= |sorted| && SplitsAt(sorted, frame, at)
    ensures SearchSlot(sorted, frame, lo, hi) == at
    decreases hi - lo
  {
    if lo < hi {
      var mid := (lo + hi) / 2;
      if mid < at { SearchFindsSplit(sorted, frame, mid + 1, hi, at); }
      else { SearchFindsSplit(sorted, frame, lo, mid, at); }
    }
  }

  method InsertSorted(sorted: seq<Frame>, frame: Frame) returns (view: seq<Frame>)
    ensures view == Insert(sorted, SearchSlot(sorted, frame, 0, |sorted|), frame)
    ensures forall at :: SplitsAt(sorted, frame, at) ==> view == Insert(sorted, at, frame)
  {
    var lo, hi := 0, |sorted|;
    while lo < hi
      invariant 0 <= lo <= hi <= |sorted|
      invariant SearchSlot(sorted, frame, lo, hi) == SearchSlot(sorted, frame, 0, |sorted|)
    {
      var mid := (lo + hi) / 2;
      if TranscriptOrder(sorted[mid], 0, frame, 1) <= 0 { lo := mid + 1; } else { hi := mid; }
    }
    if lo == |sorted| {
      view := sorted + [frame];
    } else {
      view := sorted[..lo] + [frame] + sorted[lo..];
    }
    forall at | SplitsAt(sorted, frame, at) ensures at == lo {
      SearchFindsSplit(sorted, frame, 0, |sorted|, at);
    }
    assert view == Insert(sorted, lo, frame);
  }

  function PushLog(s: Log, frame: Frame): Log {
    if FrameKey(frame) in s.byKey then s
    else Log(s.events + [frame], s.byKey[FrameKey(frame) := |s.events|], s.version + 1,
             if s.sorted.None? then None
             else Some(Insert(s.sorted.value, SearchSlot(s.sorted.value, frame, 0, |s.sorted.value|), frame)))
  }

  /** The binary search puts an appended frame at its place in the transcript. */
  lemma SearchKeepsFaithful(ev: seq<Frame>, view: seq<Frame>, frame: Frame)
    requires Faithful(ev, view) && NoWedge(Stamps(ev + [frame]))
    ensures Faithful(ev + [frame], Insert(view, SearchSlot(view, frame, 0, |view|), frame))
  {
    SlotSplits(ev, view, frame);
    SearchFindsSplit(view, frame, 0, |view|, Slot(view, frame));
    InsertKeepsFaithful(ev, view, frame, Slot(view, frame));
  }

  lemma PushIndexed(s: Log, frame: Frame)
    requires Indexed(s.events, s.byKey)
    ensures Indexed(PushLog(s, frame).events, PushLog(s, frame).byKey)
  {
    assert Keys(s.events + [frame]) == Keys(s.events) + [FrameKey(frame)];
  }

  // ----- In-place update -----

  /** The index of the frame an update applies to, if it names a held frame and is not stale. */
  function UpdateTarget(s: Log, updated: Frame): (i: Option<nat>)
    ensures i.Some? ==> i.value < |s.events|
  {
    if !Truthy(updated.id) || updated.id.value !in s.byKey then None
    else
      var i := s.byKey[updated.id.value];
      if i >= |s.events| then None
      else
        var existing := VersionOf(s.events[i]);
        if updated.frameVersion.Some? && updated.frameVersion.value < existing then None else Some(i)
  }

  predicate Moves(previous: Frame, next: Frame) {
    previous.timestampMs != next.timestampMs || CursorSeq(previous.cursor) != CursorSeq(next.cursor)
  }

  function IndexOf(view: seq<Frame>, f: Frame): (at: int)
    ensures -1 <= at < |view|
    ensures at >= 0 ==> view[at] == f
    ensures at < 0 ==> f !in view
  {
    if view == [] then -1
    else if view[0] == f then 0
    else
      var at := IndexOf(view[1..], f);
      if at < 0 then -1 else at + 1
  }

  function MergeLog(s: Log, updated: Frame): Log {
    var target := UpdateTarget(s, updated);
    if target.None? then s
    else
      var i := target.value;
      var previous := s.events[i];
      var next := Spread(previous, updated);
      var sorted :=
        if Moves(previous, next) || s.sorted.None? then None
        else
          var at := IndexOf(s.sorted.value, previous);
          if at >= 0 then Some(s.sorted.value[at := next]) else None;
      Log(s.events[i := next], s.byKey, s.version + 1, sorted)
  }

  lemma MergeKeepsSound(s: Log, updated: Frame)
    requires Sound(s)
    ensures Sound(MergeLog(s, updated))
  {
    var target, t := UpdateTarget(s, updated), MergeLog(s, updated);
    if target.Some? {
      var i := target.value;
      var previous, next := s.events[i], Spread(s.events[i], updated);
      assert FrameKey(next) == updated.id.value == Keys(s.events)[i];
      assert Keys(t.events) == Keys(s.events);
      if t.sorted.Some? {
        var at := IndexOf(s.sorted.value, previous);
        IndexedIsDistinct(s.events, s.byKey);
        ReplaceKeepsFaithful(s.events, s.sorted.value, i, next, at);
      }
    }
  }

  /** An accepted update changes exactly the frame it names and never lowers its
      version; it is refused, changing nothing, exactly when no held frame has
      the id or the held one is newer. */
  lemma MergeTouchesOne(s: Log, updated: Frame, k: nat)
    requires Indexed(s.events, s.byKey) && k < |s.events|
    ensures var t := MergeLog(s, updated);
            && |t.events| == |s.events| && t.byKey == s.byKey
            && FrameKey(t.events[k]) == FrameKey(s.events[k])
            && VersionOf(t.events[k]) >= VersionOf(s.events[k])
            && (t.events[k] != s.events[k] ==> Truthy(updated.id) && FrameKey(s.events[k]) == updated.id.value)
            && (Truthy(updated.id) && FrameKey(s.events[k]) == updated.id.value ==>
                  if updated.frameVersion.Some? && updated.frameVersion.value < VersionOf(s.events[k]) then t == s
                  else t.events[k] == Spread(s.events[k], updated) && t.version == s.version + 1)
  {
    var target := UpdateTarget(s, updated);
    if target.Some? && target.value == k {
      assert FrameKey(Spread(s.events[k], updated)) == updated.id.value;
    }
  }

  // ----- Trim -----

  /** The key index rebuilt from the retained frames. */
  function IndexOfAll(keys: seq<string>): map<string, nat> {
    if keys == [] then map[]
    else var n := |keys| - 1; IndexOfAll(keys[..n])[keys[n] := n]
  }

  lemma {:induction false} RebuiltIndex(keys: seq<string>)
    requires Distinct(keys)
    ensures Inverse(keys, IndexOfAll(keys))
  {
    if keys != [] {
      RebuiltIndex(keys[..|keys| - 1]);
    }
  }

  /** One trim of a log whose view is `view`. */
  function TrimLog(s: Log, view: seq<Frame>, max: nat): Log {
    if |view| <= max then s.(sorted := Some(view))
    else
      var drop := |view| - max;
      var retained := Retained(s.events, view, drop);
      Log(retained, IndexOfAll(Keys(retained)), s.version + 1, Some(view[drop..]))
  }

  lemma TrimKeepsIndexed(s: Log, view: seq<Frame>, max: nat)
    requires Indexed(s.events, s.byKey)
    ensures Indexed(TrimLog(s, view, max).events, TrimLog(s, view, max).byKey)
  {
    if |view| > max {
      var kept := KeptIndices(s.events, FirstFrames(view, |view| - max), |s.events|);
      var keys := Keys(Pick(s.events, kept));
      KeptSpec(s.events, FirstFrames(view, |view| - max), |s.events|);
      IndexedIsDistinct(s.events, s.byKey);
      assert keys == Pick(Keys(s.events), kept);
      forall i, j | 0 <= i < j < |keys| ensures keys[i] != keys[j] {
        assert kept[i] < kept[j];
      }
      RebuiltIndex(keys);
    }
  }

  lemma TrimKeepsSound(s: Log, view: seq<Frame>, max: nat)
    requires Indexed(s.events, s.byKey) && Faithful(s.events, view)
    ensures Sound(TrimLog(s, view, max))
  {
    assert Indexed(TrimLog(s, view, max).events, TrimLog(s, view, max).byKey) by { TrimKeepsIndexed(s, view, max); }
    if |view| > max {
      assert Distinct(s.events) by { IndexedIsDistinct(s.events, s.byKey); }
      TrimKeepsFaithful(s.events, view, |view| - max);
    }
  }

  /** `sub` is `s` with some elements left out. */
  ghost predicate Subsequence(sub: seq<Frame>, s: seq<Frame>) {
    exists kept: seq<nat> :: Increasing(kept) && (forall k :: 0 <= k < |kept| ==> kept[k] < |s|) && sub == Pick(s, kept)
  }

  /** Trimming a faithful log down to `max` keeps exactly the `max` last frames
      of the transcript, in arrival order. */
  lemma TrimKeepsTheLast(s: Log, view: seq<Frame>, max: nat)
    requires Indexed(s.events, s.byKey) && Faithful(s.events, view) && max < |s.events|
    ensures var t := TrimLog(s, view, max);
            && |t.events| == max && Subsequence(t.events, s.events)
            && forall f :: f in t.events <==> f in view[|view| - max..]
  {
    FaithfulContents(s.events, view);
    var drop := |view| - max;
    var t, kept := TrimLog(s, view, max), KeptIndices(s.events, FirstFrames(view, drop), |s.events|);
    IndexedIsDistinct(s.events, s.byKey);
    TrimKeepsFaithful(s.events, view, drop);
    FaithfulContents(t.events, view[drop..]);
    KeptSpec(s.events, FirstFrames(view, drop), |s.events|);
    assert Increasing(kept) && t.events == Pick(s.events, kept);
  }

  // ----- The busy replay re-sorts the cached array -----

  /** The replay's comparator: missing timestamps count as zero, ties by `tie`. */
  function BusyOrder(a: Frame, b: Frame, tie: (Frame, Frame) -> int): int {
    var ta := if a.timestampMs.Some? then a.timestampMs.value else 0;
    var tb := if b.timestampMs.Some? then b.timestampMs.value else 0;
    if ta != tb then ta - tb else tie(a, b)
  }

  function BusySlot(view: seq<Frame>, x: Frame, tie: (Frame, Frame) -> int): (at: nat)
    ensures at <= |view|
  {
    if view == [] || BusyOrder(view[|view| - 1], x, tie) <= 0 then |view|
    else BusySlot(view[..|view| - 1], x, tie)
  }

  /** The stable in-place sort by the replay's comparator. */
  function BusySort(view: seq<Frame>, tie: (Frame, Frame) -> int): (r: seq<Frame>)
    ensures |r| == |view|
  {
    if view == [] then []
    else
      var n := |view| - 1;
      var init := BusySort(view[..n], tie);
      Insert(init, BusySlot(init, view[n], tie), view[n])
  }

  lemma {:induction false} BusySortPermutes(view: seq<Frame>, tie: (Frame, Frame) -> int)
    ensures multiset(BusySort(view, tie)) == multiset(view)
  {
    if view != [] {
      var n := |view| - 1;
      var init := BusySort(view[..n], tie);
      BusySortPermutes(view[..n], tie);
      assert view == view[..n] + [view[n]];
      InsertAddsOne(init, BusySlot(init, view[n], tie), view[n]);
    }
  }

  /** Neighbours of the view are in replay order. */
  ghost predicate BusyOrdered(view: seq<Frame>, tie: (Frame, Frame) -> int) {
    forall k: nat :: 0 < k < |view| ==> BusyOrderedAt(view, tie, k)
  }

  predicate BusyOrderedAt(view: seq<Frame>, tie: (Frame, Frame) -> int, k: nat)
    requires 0 < k < |view|
  {
    BusyOrder(view[k - 1], view[k], tie) <= 0
  }

  // ----- Runs -----

  /** Resort: the replay sorts the cached array in place, ties by `tie`. */
  datatype Op =
    Push(frame: Frame) | Merge(updated: Frame) | Trim(max: nat) | Reset | View | Resort(tie: (Frame, Frame) -> int)

  /** The view `sortedEvents` returns: the cached one, or a full sort. */
  function ViewOf(s: Log): seq<Frame> {
    if s.sorted.Some? then s.sorted.value else FullSort(s.events)
  }

  function Step(s: Log, op: Op): Log {
    match op
    case Push(frame) => PushLog(s, frame)
    case Merge(updated) => MergeLog(s, updated)
    case Trim(max) => TrimLog(s, ViewOf(s), max)
    case Reset => Log([], map[], s.version + 1, None)
    case View => s.(sorted := Some(ViewOf(s)))
    case Resort(tie) => s.(sorted := Some(BusySort(ViewOf(s), tie)))
  }

  function Run(s: Log, ops: seq<Op>): Log {
    if |ops| == 0 then s else Step(Run(s, ops[..|ops| - 1]), ops[|ops| - 1])
  }

  /** The key index needs no assumption on cursors. */
  lemma {:induction false} RunKeepsIndex(ops: seq<Op>)
    ensures var s := Run(EMPTY_LOG, ops); Indexed(s.events, s.byKey)
  {
    if ops != [] {
      RunKeepsIndex(ops[..|ops| - 1]);
      var s, op := Run(EMPTY_LOG, ops[..|ops| - 1]), ops[|ops| - 1];
      match op
      case Push(frame) => PushIndexed(s, frame);
      case Merge(updated) => MergeKeepsSound(s.(sorted := None), updated);
      case Trim(max) => TrimKeepsIndexed(s, ViewOf(s), max);
      case Reset =>
      case View =>
      case Resort(tie) =>
    }
  }

  /** The call changes the log, rather than refusing or only caching the view. */
  predicate Mutates(s: Log, op: Op) {
    match op
    case Push(frame) => FrameKey(frame) !in s.byKey
    case Merge(updated) => UpdateTarget(s, updated).Some?
    case Trim(max) => |ViewOf(s)| > max
    case Reset => true
    case View => false
    case Resort(tie) => false
  }

  function Mutations(ops: seq<Op>): nat {
    if |ops| == 0 then 0
    else Mutations(ops[..|ops| - 1]) + if Mutates(Run(EMPTY_LOG, ops[..|ops| - 1]), ops[|ops| - 1]) then 1 else 0
  }

  lemma OnlyMutationsChange(s: Log, op: Op)
    ensures Step(s, op).version == s.version + if Mutates(s, op) then 1 else 0
    ensures !Mutates(s, op) ==> Step(s, op).events == s.events && Step(s, op).byKey == s.byKey
  {}

  /** `version` counts exactly the mutating calls of any sequence. */
  lemma {:induction false} VersionCountsMutations(ops: seq<Op>)
    ensures Run(EMPTY_LOG, ops).version == Mutations(ops)
  {
    if ops != [] {
      VersionCountsMutations(ops[..|ops| - 1]);
      OnlyMutationsChange(Run(EMPTY_LOG, ops[..|ops| - 1]), ops[|ops| - 1]);
    }
  }

  lemma StepKeepsSound(s: Log, op: Op)
    requires Sound(s) && NoWedge(Stamps(s.events)) && NoWedge(Stamps(Step(s, op).events))
    requires op.Resort? ==> BusyOrdered(ViewOf(s), op.tie)
    ensures Sound(Step(s, op))
  {
    match op
    case Push(frame) =>
      PushIndexed(s, frame);
      if FrameKey(frame) !in s.byKey && s.sorted.Some? {
        SearchKeepsFaithful(s.events, s.sorted.value, frame);
      }
    case Merge(updated) => MergeKeepsSound(s, updated);
    case Trim(max) =>
      if s.sorted.None? { FullSortIsFaithful(s.events); }
      TrimKeepsSound(s, ViewOf(s), max);
    case Reset =>
    case View => ViewKeepsSound(s);
    case Resort(tie) => ResortKeepsSound(s, tie);
  }

  lemma ViewIsFaithful(s: Log)
    requires Sound(s) && NoWedge(Stamps(s.events))
    ensures Faithful(s.events, ViewOf(s))
  {
    if s.sorted.None? { FullSortIsFaithful(s.events); }
  }

  lemma OrderedResortIsIdle(ev: seq<Frame>, view: seq<Frame>, tie: (Frame, Frame) -> int)
    requires Distinct(ev) && Faithful(ev, view) && BusyOrdered(view, tie)
    ensures BusySort(view, tie) == view
  {
    ViewIsDistinct(ev, view);
    BusyFixpoint(view, tie);
  }

  lemma ViewKeepsSound(s: Log)
    requires Sound(s) && NoWedge(Stamps(s.events))
    ensures Sound(Step(s, View))
  {
    ViewIsFaithful(s);
  }

  lemma OrderedResortIsView(s: Log, view: seq<Frame>, tie: (Frame, Frame) -> int)
    requires view == ViewOf(s) && Distinct(s.events) && Faithful(s.events, view) && BusyOrdered(view, tie)
    ensures Step(s, Resort(tie)) == Step(s, View)
  {
    OrderedResortIsIdle(s.events, view, tie);
  }

  lemma ResortKeepsSound(s: Log, tie: (Frame, Frame) -> int)
    requires Sound(s) && NoWedge(Stamps(s.events)) && BusyOrdered(ViewOf(s), tie)
    ensures Step(s, Resort(tie)) == Step(s, View) && Sound(Step(s, View))
  {
    var view := ViewOf(s);
    assert Faithful(s.events, view) by { ViewIsFaithful(s); }
    assert Distinct(s.events) by { IndexedIsDistinct(s.events, s.byKey); }
    OrderedResortIsView(s, view, tie);
    ViewKeepsSound(s);
  }

  /** Every state the run goes through is free of wedges. */
  ghost predicate NeverWedged(ops: seq<Op>) {
    forall k :: 0 <= k <= |ops| ==> NoWedge(Stamps(Run(EMPTY_LOG, ops[..k]).events))
  }

  /** Every replay sort of the run finds neighbouring frames in its own order. */
  ghost predicate HarmlessResorts(ops: seq<Op>) {
    forall k :: 0 <= k < |ops| && ops[k].Resort? ==> BusyOrdered(ViewOf(Run(EMPTY_LOG, ops[..k])), ops[k].tie)
  }

  lemma {:induction false} RunIsSound(ops: seq<Op>)
    requires NeverWedged(ops) && HarmlessResorts(ops)
    ensures Sound(Run(EMPTY_LOG, ops))
  {
    if ops != [] {
      var n := |ops| - 1;
      var init := ops[..n];
      assert forall k :: 0 <= k <= n ==> init[..k] == ops[..k];
      assert NoWedge(Stamps(Run(EMPTY_LOG, ops[..n]).events));
      assert NoWedge(Stamps(Run(EMPTY_LOG, ops[..n + 1]).events));
      assert ops[..n + 1] == ops;
      RunIsSound(init);
      StepKeepsSound(Run(EMPTY_LOG, init), ops[n]);
    }
  }

  /** After any calls, the cached view, if there is one, is the full sort of the
      arrival-order log, as long as the log never held a wedge and no replay sort
      found neighbours out of its order. */
  lemma CachedViewIsFullSort(ops: seq<Op>)
    requires NeverWedged(ops) && HarmlessResorts(ops)
    ensures var s := Run(EMPTY_LOG, ops); s.sorted.Some? ==> s.sorted.value == FullSort(s.events)
  {
    RunIsSound(ops);
    TranscriptExistsIff(Run(EMPTY_LOG, ops).events);
  }

  // ----- What the replay sort does to the view -----

  lemma BusyOrderedSnoc(init: seq<Frame>, x: Frame, tie: (Frame, Frame) -> int)
    ensures BusyOrdered(init + [x], tie) <==>
            BusyOrdered(init, tie) && (init != [] ==> BusyOrder(init[|init| - 1], x, tie) <= 0)
  {
    var view, n := init + [x], |init|;
    forall k: nat | 0 < k < n ensures BusyOrderedAt(view, tie, k) <==> BusyOrderedAt(init, tie, k) {
      assert view[k - 1] == init[k - 1] && view[k] == init[k];
    }
    if n > 0 {
      assert view[n - 1] == init[n - 1] && view[n] == x;
      assert BusyOrderedAt(view, tie, n) <==> BusyOrder(init[n - 1], x, tie) <= 0;
    }
    if BusyOrdered(view, tie) {
      forall k: nat | 0 < k < n ensures BusyOrderedAt(init, tie, k) { assert BusyOrderedAt(view, tie, k); }
    }
  }

  /** Inserting a new frame gives the frames in their old order exactly when it goes last. */
  lemma InsertLast(r: seq<Frame>, at: nat, init: seq<Frame>, x: Frame)
    requires at <= |r| == |init| && x !in init
    ensures Insert(r, at, x) == init + [x] <==> r == init && at == |r|
  {
    var a, b := Insert(r, at, x), init + [x];
    assert a == b ==> a[at] == b[at];
    assert at == |r| ==> a == r + [x] && a[..|r|] == r && b[..|r|] == init;
  }

  lemma {:induction false} BusyFixpoint(view: seq<Frame>, tie: (Frame, Frame) -> int)
    requires Distinct(view)
    ensures BusySort(view, tie) == view <==> BusyOrdered(view, tie)
  {
    if view != [] {
      var n := |view| - 1;
      var init, x := view[..n], view[n];
      BusyFixpoint(init, tie);
      assert view == init + [x];
      BusySortLast(init, x, tie);
      BusyOrderedSnoc(init, x, tie);
    }
  }

  lemma BusySortLast(init: seq<Frame>, x: Frame, tie: (Frame, Frame) -> int)
    requires x !in init
    ensures BusySort(init + [x], tie) == init + [x] <==>
            BusySort(init, tie) == init && (init != [] ==> BusyOrder(init[|init| - 1], x, tie) <= 0)
  {
    var r := BusySort(init, tie);
    assert (init + [x])[..|init|] == init;
    InsertLast(r, BusySlot(r, x, tie), init, x);
  }

  lemma ViewIsDistinct(ev: seq<Frame>, view: seq<Frame>)
    requires Faithful(ev, view) && Distinct(ev)
    ensures Distinct(view)
  {
    var idx: seq<nat> :| IsTranscript(Stamps(ev), idx) && view == Pick(ev, idx);
    TranscriptCovers(Stamps(ev), idx);
    forall j, k | 0 <= j < k < |view| ensures view[j] != view[k] {
      assert idx[j] != idx[k];
    }
  }

  /** Re-sorting the cached array for the busy replay leaves it a transcript if
      and only if neighbouring frames of the transcript are in replay order. */
  lemma BusyResortHarmlessIff(ev: seq<Frame>, view: seq<Frame>, tie: (Frame, Frame) -> int)
    requires Distinct(ev) && Faithful(ev, view)
    ensures Faithful(ev, BusySort(view, tie)) <==> BusyOrdered(view, tie)
  {
    ViewIsDistinct(ev, view);
    BusyFixpoint(view, tie);
    if Faithful(ev, BusySort(view, tie)) {
      FaithfulIsUnique(ev, view, BusySort(view, tie));
    }
  }

  /** Otherwise it reorders the view the log caches: any frame without a
      timestamp moves in front of a timed one, and the next trim drops it instead
      of the older frame. `PushPushView` reaches such a log. */
  lemma BusyResortBreaksView(s: Log, a: Frame, b: Frame, tie: (Frame, Frame) -> int)
    requires a.timestampMs.Some? && 0 < a.timestampMs.value < MAX_SAFE_INTEGER && b.timestampMs.None?
    requires s.events == [a, b] && s.sorted == Some([a, b])
    ensures !Faithful([a, b], [b, a]) && Step(s, Trim(1)).events == [b]
    ensures Step(s, Resort(tie)).sorted == Some([b, a]) && Step(Step(s, Resort(tie)), Trim(1)).events == [a]
  {
    BusySortSwaps(a, b, tie);
    ResortThenTrim(s, a, b, tie);
    TrimUnsorted(s, a, b);
  }

  lemma TrimUnsorted(s: Log, a: Frame, b: Frame)
    requires a.timestampMs.Some? && 0 < a.timestampMs.value < MAX_SAFE_INTEGER && b.timestampMs.None?
    requires s.events == [a, b] && s.sorted == Some([a, b])
    ensures !Faithful([a, b], [b, a]) && Step(s, Trim(1)).events == [b]
  {
    SwappedIsUnfaithful(a, b) by { TwoFrameSort(a, b); }
    TrimToOne(s, [a, b]);
    TrimOfTwo(a, b);
  }

  lemma ResortThenTrim(s: Log, a: Frame, b: Frame, tie: (Frame, Frame) -> int)
    requires a != b && s.events == [a, b] && s.sorted == Some([a, b]) && BusySort([a, b], tie) == [b, a]
    ensures Step(s, Resort(tie)).sorted == Some([b, a]) && Step(Step(s, Resort(tie)), Trim(1)).events == [a]
  {
    var t := Step(s, Resort(tie));
    assert t == s.(sorted := Some([b, a]));
    TrimToOne(t, [b, a]);
    TrimOfTwo'(a, b);
  }

  lemma TrimToOne(s: Log, view: seq<Frame>)
    requires s.sorted == Some(view) && |view| == 2
    ensures Step(s, Trim(1)).events == Retained(s.events, view, 1)
  {}

  lemma SwappedIsUnfaithful(a: Frame, b: Frame)
    requires a != b && FullSort([a, b]) == [a, b]
    ensures !Faithful([a, b], [b, a])
  {
    TranscriptExistsIff([a, b]);
    assert [b, a][0] != [a, b][0];
  }

  lemma PushPushView(a: Frame, b: Frame)
    requires FrameKey(a) != FrameKey(b) && TranscriptOrder(a, 0, b, 1) <= 0
    ensures var s := Step(Step(Step(EMPTY_LOG, Push(a)), Push(b)), View); s.events == [a, b] && s.sorted == Some([a, b])
  {
    TwoFrameSort(a, b);
    assert [] + [a] + [b] == [a, b];
  }

  lemma BusySortSwaps(a: Frame, b: Frame, tie: (Frame, Frame) -> int)
    requires BusyOrder(a, b, tie) > 0
    ensures BusySort([a, b], tie) == [b, a]
  {
    assert [a, b][..1] == [a] && [a][..0] == [];
    assert BusySort([a], tie) == [a];
    assert BusySlot([a], b, tie) == 0;
  }

  lemma TwoFrameSort(a: Frame, b: Frame)
    requires TranscriptOrder(a, 0, b, 1) <= 0
    ensures FullSort([a, b]) == [a, b]
  {
    assert [a, b][..1] == [a] && [a][..0] == [];
    assert FullSort([a]) == [a];
  }

  lemma TrimOfTwo(a: Frame, b: Frame)
    requires a != b
    ensures Retained([a, b], [a, b], 1) == [b]
  {
    assert [a, b][..1] == [a];
    assert FirstFrames([a, b], 1) == {a};
    assert KeptIndices([a, b], {a}, 1) == [];
    assert KeptIndices([a, b], {a}, 2) == [1];
  }

  lemma TrimOfTwo'(a: Frame, b: Frame)
    requires a != b
    ensures Retained([a, b], [b, a], 1) == [a]
  {
    assert [b, a][..1] == [b];
    assert FirstFrames([b, a], 1) == {b};
    assert KeptIndices([a, b], {b}, 1) == [0];
    assert KeptIndices([a, b], {b}, 2) == [0];
  }
}
