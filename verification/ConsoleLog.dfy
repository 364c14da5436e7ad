/** The log as the console drives it (console/src/ConsoleApp.tsx): append with
    trimming to a ceiling, the paging boundary left by a trim, and the cursors
    noted from timeline pages. */
module ConsoleLog {
  import opened Wrappers
  import opened Frames
  import opened Transcript
  import opened IdentityLog

  const MAX_IDENTITY_LOG_EVENTS: nat := 5000
  const IDENTITY_LOG_TRIM_SLACK: nat := 500
  const LIMIT: nat := MAX_IDENTITY_LOG_EVENTS + IDENTITY_LOG_TRIM_SLACK

  // ----- The cached view always lists the log, ordered or not -----

  /** Holds of every log, wedged or not: an exact index, and a view that is a permutation. */
  ghost predicate Kept(s: Log) {
    && Indexed(s.events, s.byKey)
    && (s.sorted.Some? ==> multiset(s.sorted.value) == multiset(s.events))
  }

  lemma {:induction false} DistinctMultiset<T>(s: seq<T>, x: T)
    requires Distinct(s)
    ensures multiset(s)[x] == if x in s then 1 else 0
  {
    if s != [] {
      assert s == [s[0]] + s[1..];
      DistinctMultiset(s[1..], x);
      assert s[0] !in s[1..];
    }
  }

  lemma {:induction false} PermutationIsDistinct<T>(s: seq<T>, t: seq<T>)
    requires Distinct(s) && multiset(s) == multiset(t)
    ensures Distinct(t)
  {
    forall i, j | 0 <= i < j < |t| ensures t[i] != t[j] {
      DistinctMultiset(s, t[i]);
      assert t == t[..j] + [t[j]] + t[j + 1..];
      assert t[i] in t[..j];
    }
  }

  /** A trim keeps `max` frames: those of the view's tail. */
  lemma TrimPermutation(ev: seq<Frame>, view: seq<Frame>, drop: nat)
    requires Distinct(ev) && multiset(view) == multiset(ev) && drop <= |view|
    ensures multiset(Retained(ev, view, drop)) == multiset(view[drop..])
    ensures |Retained(ev, view, drop)| == |view| - drop
  {
    var kept := KeptIndices(ev, FirstFrames(view, drop), |ev|);
    var left := Retained(ev, view, drop);
    KeptSpec(ev, FirstFrames(view, drop), |ev|);
    PermutationIsDistinct(ev, view);
    forall i, j | 0 <= i < j < |left| ensures left[i] != left[j] {
      assert kept[i] < kept[j];
    }
    forall f: Frame ensures f in left <==> f in view[drop..] {
      TailMembership(ev, view, drop, f);
    }
    forall f: Frame ensures multiset(left)[f] == multiset(view[drop..])[f] {
      DistinctMultiset(left, f);
      DistinctMultiset(view[drop..], f);
    }
    assert multiset(left) == multiset(view[drop..]);
    assert |left| == |multiset(left)| && |multiset(view[drop..])| == |view| - drop;
  }

  lemma TailMembership(ev: seq<Frame>, view: seq<Frame>, drop: nat, f: Frame)
    requires Distinct(view) && multiset(view) == multiset(ev) && drop <= |view|
    ensures f in Retained(ev, view, drop) <==> f in view[drop..]
  {
    var kept := KeptIndices(ev, FirstFrames(view, drop), |ev|);
    KeptSpec(ev, FirstFrames(view, drop), |ev|);
    assert f in multiset(ev) <==> f in multiset(view);
    assert view == view[..drop] + view[drop..];
    if f in ev && f !in view[..drop] {
      var i :| 0 <= i < |ev| && ev[i] == f;
      var k := PositionOf(kept, i);
      assert Retained(ev, view, drop)[k] == f;
    }
  }

  lemma SameLength<T>(s: seq<T>, t: seq<T>)
    requires multiset(s) == multiset(t)
    ensures |s| == |t|
  {
    assert |s| == |multiset(s)|;
  }

  lemma ViewIsPermutation(s: Log)
    requires Kept(s)
    ensures multiset(ViewOf(s)) == multiset(s.events)
  {}

  lemma PushKeeps(s: Log, frame: Frame)
    requires Kept(s)
    ensures Kept(PushLog(s, frame))
  {
    PushIndexed(s, frame);
    if s.sorted.Some? {
      InsertAddsOne(s.sorted.value, SearchSlot(s.sorted.value, frame, 0, |s.sorted.value|), frame);
    }
  }

  lemma MergeKeeps(s: Log, updated: Frame)
    requires Kept(s)
    ensures Kept(MergeLog(s, updated)) && |MergeLog(s, updated).events| == |s.events|
  {
    MergeKeepsSound(s.(sorted := None), updated);
  }

  lemma TrimKeeps(s: Log, max: nat)
    requires Kept(s)
    ensures Kept(TrimLog(s, ViewOf(s), max))
    ensures |TrimLog(s, ViewOf(s), max).events| == if |s.events| > max then max else |s.events|
  {
    var view := ViewOf(s);
    SameLength(view, s.events);
    TrimKeepsIndexed(s, view, max);
    if |view| > max {
      TrimPermutation(s.events, view, |view| - max) by { IndexedIsDistinct(s.events, s.byKey); }
    }
  }

  // ----- Append -----

  function AppendLog(s: Log, frame: Frame): Log {
    if FrameKey(frame) in s.byKey then s
    else
      var t := PushLog(s, frame);
      if |t.events| > LIMIT then TrimLog(t, ViewOf(t), MAX_IDENTITY_LOG_EVENTS) else t
  }

  /** Appending `frame` drops older frames. */
  predicate TrimsOn(s: Log, frame: Frame) {
    && FrameKey(frame) !in s.byKey && |s.events| >= LIMIT
    && |ViewOf(PushLog(s, frame))| > MAX_IDENTITY_LOG_EVENTS
  }

  lemma AppendKeeps(s: Log, frame: Frame)
    requires Kept(s)
    ensures Kept(AppendLog(s, frame))
    ensures |s.events| <= LIMIT ==> |AppendLog(s, frame).events| <= LIMIT
  {
    PushKeeps(s, frame);
    TrimKeeps(PushLog(s, frame), MAX_IDENTITY_LOG_EVENTS);
  }

  datatype ConsoleOp =
    Append(frame: Frame) | Update(updated: Frame) | Refresh | Replay(tie: (Frame, Frame) -> int) | Clear

  function ConsoleStep(s: Log, op: ConsoleOp): Log {
    match op
    case Append(frame) => AppendLog(s, frame)
    case Update(updated) => MergeLog(s, updated)
    case Refresh => Step(s, View)
    case Replay(tie) => Step(s, Resort(tie))
    case Clear => Step(s, Reset)
  }

  function ConsoleRun(ops: seq<ConsoleOp>): Log {
    if |ops| == 0 then EMPTY_LOG else ConsoleStep(ConsoleRun(ops[..|ops| - 1]), ops[|ops| - 1])
  }

  lemma RecachedKeeps(s: Log, view: seq<Frame>)
    requires Kept(s) && multiset(view) == multiset(s.events)
    ensures Kept(s.(sorted := Some(view)))
  {}

  lemma ReplayKeeps(s: Log, tie: (Frame, Frame) -> int)
    requires Kept(s)
    ensures Kept(Step(s, Resort(tie))) && Step(s, Resort(tie)).events == s.events
  {
    ViewIsPermutation(s);
    BusySortPermutes(ViewOf(s), tie);
    RecachedKeeps(s, BusySort(ViewOf(s), tie));
  }

  lemma RefreshKeeps(s: Log)
    requires Kept(s)
    ensures Kept(Step(s, View)) && Step(s, View).events == s.events
  {
    ViewIsPermutation(s);
    RecachedKeeps(s, ViewOf(s));
  }

  lemma ConsoleStepKeeps(s: Log, op: ConsoleOp)
    requires Kept(s) && |s.events| <= LIMIT
    ensures Kept(ConsoleStep(s, op)) && |ConsoleStep(s, op).events| <= LIMIT
  {
    match op
    case Append(frame) => AppendKeeps(s, frame);
    case Update(updated) => MergeKeeps(s, updated);
    case Refresh => RefreshKeeps(s);
    case Replay(tie) => ReplayKeeps(s, tie);
    case Clear =>
  }

  /** Whatever arrives in whatever order, and however often the busy state is
      replayed, the log never exceeds ceiling plus slack. */
  lemma {:induction false} LogStaysBounded(ops: seq<ConsoleOp>)
    ensures Kept(ConsoleRun(ops)) && |ConsoleRun(ops).events| <= LIMIT
  {
    if ops != [] {
      LogStaysBounded(ops[..|ops| - 1]);
      ConsoleStepKeeps(ConsoleRun(ops[..|ops| - 1]), ops[|ops| - 1]);
    }
  }

  // ----- Cursors -----

  function NewerCursor(a: Option<string>, b: Option<string>): Option<string> {
    var sa, sb := CursorSeq(a), CursorSeq(b);
    if sa.None? then (if Truthy(b) then b else a)
    else if sb.None? then a
    else if sb.value > sa.value then b else a
  }

  function OlderCursor(a: Option<string>, b: Option<string>): Option<string> {
    var sa, sb := CursorSeq(a), CursorSeq(b);
    if sa.None? then (if Truthy(b) then b else a)
    else if sb.None? then a
    else if sb.value < sa.value then b else a
  }

  function SeqOf(cursor: Option<string>): set<nat> {
    if CursorSeq(cursor).Some? then {CursorSeq(cursor).value} else {}
  }

  function SeqsOf(frames: seq<Frame>): set<nat> {
    if frames == [] then {} else SeqOf(frames[0].cursor) + SeqsOf(frames[1..])
  }

  /** `cursor` carries the minimum of `seqs`, and parses exactly when there is one. */
  ghost predicate Lowest(cursor: Option<string>, seqs: set<nat>) {
    if seqs == {} then CursorSeq(cursor).None?
    else
      && CursorSeq(cursor).Some? && CursorSeq(cursor).value in seqs
      && forall n :: n in seqs ==> CursorSeq(cursor).value <= n
  }

  ghost predicate Highest(cursor: Option<string>, seqs: set<nat>) {
    if seqs == {} then CursorSeq(cursor).None?
    else
      && CursorSeq(cursor).Some? && CursorSeq(cursor).value in seqs
      && forall n :: n in seqs ==> n <= CursorSeq(cursor).value
  }

  lemma OlderKeepsLowest(a: Option<string>, b: Option<string>, seqs: set<nat>)
    requires Lowest(a, seqs)
    ensures Lowest(OlderCursor(a, b), seqs + SeqOf(b))
  {}

  lemma NewerKeepsHighest(a: Option<string>, b: Option<string>, seqs: set<nat>)
    requires Highest(a, seqs)
    ensures Highest(NewerCursor(a, b), seqs + SeqOf(b))
  {}

  /** Fold of `OlderCursor` over the frames' cursors, and of `NewerCursor`. */
  function OldestOf(a: Option<string>, frames: seq<Frame>): Option<string>
    decreases |frames|
  {
    if frames == [] then a else OldestOf(OlderCursor(a, frames[0].cursor), frames[1..])
  }

  function LatestOf(a: Option<string>, frames: seq<Frame>): Option<string>
    decreases |frames|
  {
    if frames == [] then a else LatestOf(NewerCursor(a, frames[0].cursor), frames[1..])
  }

  lemma {:induction false} OldestIsLowest(a: Option<string>, frames: seq<Frame>, seqs: set<nat>)
    requires Lowest(a, seqs)
    ensures Lowest(OldestOf(a, frames), seqs + SeqsOf(frames))
    decreases |frames|
  {
    if frames == [] {
      assert seqs + {} == seqs;
    } else {
      OlderKeepsLowest(a, frames[0].cursor, seqs);
      OldestIsLowest(OlderCursor(a, frames[0].cursor), frames[1..], seqs + SeqOf(frames[0].cursor));
      assert seqs + SeqOf(frames[0].cursor) + SeqsOf(frames[1..]) == seqs + SeqsOf(frames);
    }
  }

  lemma {:induction false} LatestIsHighest(a: Option<string>, frames: seq<Frame>, seqs: set<nat>)
    requires Highest(a, seqs)
    ensures Highest(LatestOf(a, frames), seqs + SeqsOf(frames))
    decreases |frames|
  {
    if frames == [] {
      assert seqs + {} == seqs;
    } else {
      NewerKeepsHighest(a, frames[0].cursor, seqs);
      LatestIsHighest(NewerCursor(a, frames[0].cursor), frames[1..], seqs + SeqOf(frames[0].cursor));
      assert seqs + SeqOf(frames[0].cursor) + SeqsOf(frames[1..]) == seqs + SeqsOf(frames);
    }
  }

  lemma {:induction false} SeqsOfHas(frames: seq<Frame>, f: Frame)
    requires f in frames
    ensures SeqOf(f.cursor) <= SeqsOf(frames)
  {
    if f != frames[0] { SeqsOfHas(frames[1..], f); }
  }

  lemma {:induction false} SeqsOfOnly(frames: seq<Frame>, n: nat) returns (f: Frame)
    requires n in SeqsOf(frames)
    ensures f in frames && SeqOf(f.cursor) == {n}
  {
    if n in SeqOf(frames[0].cursor) { f := frames[0]; } else { f := SeqsOfOnly(frames[1..], n); }
  }

  /** Parsable cursor sequences strictly increase along the view. */
  ghost predicate CursorsIncrease(view: seq<Frame>) {
    forall j, k :: 0 <= j < k < |view| && CursorSeq(view[j].cursor).Some? && CursorSeq(view[k].cursor).Some?
      ==> CursorSeq(view[j].cursor).value < CursorSeq(view[k].cursor).value
  }

  /** The boundary after a trim is the lowest cursor retained, and every dropped
      frame with a parsable cursor lies strictly before it. */
  lemma TrimBoundary(s: Log, view: seq<Frame>, max: nat)
    requires Indexed(s.events, s.byKey) && multiset(view) == multiset(s.events) && max < |view|
    ensures var retained := TrimLog(s, view, max).events;
            var boundary := OldestOf(None, retained);
            && Lowest(boundary, SeqsOf(retained))
            && (CursorsIncrease(view) && CursorSeq(boundary).Some? ==>
                  forall f :: f in s.events && f !in retained && CursorSeq(f.cursor).Some?
                    ==> CursorSeq(f.cursor).value < CursorSeq(boundary).value)
  {
    var retained := TrimLog(s, view, max).events;
    var boundary := OldestOf(None, retained);
    OldestIsLowest(None, retained, {});
    assert {} + SeqsOf(retained) == SeqsOf(retained);
    assert Distinct(view) by {
      IndexedIsDistinct(s.events, s.byKey);
      PermutationIsDistinct(s.events, view);
    }
    if CursorsIncrease(view) && CursorSeq(boundary).Some? {
      var g := SeqsOfOnly(retained, CursorSeq(boundary).value);
      forall f | f in s.events && f !in retained && CursorSeq(f.cursor).Some?
        ensures CursorSeq(f.cursor).value < CursorSeq(boundary).value
      {
        DroppedIsEarlier(s.events, view, |view| - max, f, g);
      }
    }
  }

  lemma DroppedIsEarlier(ev: seq<Frame>, view: seq<Frame>, drop: nat, f: Frame, g: Frame)
    requires Distinct(view) && multiset(view) == multiset(ev) && drop <= |view| && CursorsIncrease(view)
    requires CursorSeq(f.cursor).Some? && CursorSeq(g.cursor).Some?
    requires f in ev && f !in Retained(ev, view, drop) && g in Retained(ev, view, drop)
    ensures CursorSeq(f.cursor).value < CursorSeq(g.cursor).value
  {
    assert f !in view[drop..] by { TailMembership(ev, view, drop, f); }
    assert g in view[drop..] by { TailMembership(ev, view, drop, g); }
    assert f in multiset(ev);
    var j :| 0 <= j < |view| && view[j] == f;
    var k :| 0 <= k < |view| - drop && view[drop..][k] == g;
    assert view[drop + k] == g;
  }

  // ----- Timeline pages -----

  datatype Page = Page(frames: seq<Frame>, latestCursor: Option<string>, nextCursor: Option<string>, recent: bool)

  datatype Cursors = Cursors(oldest: Option<string>, latest: Option<string>)

  /** The cursor a page offers besides those of its frames. */
  function PageCursor(page: Page): Option<string> {
    if page.recent then page.latestCursor
    else if Truthy(page.nextCursor) then page.nextCursor else page.latestCursor
  }

  function NotePage(c: Cursors, page: Page): Cursors {
    Cursors(OldestOf(c.oldest, page.frames), NewerCursor(LatestOf(c.latest, page.frames), PageCursor(page)))
  }

  /** The paging state of a log: cursors, and where older history ended. */
  datatype Paging = Paging(oldest: Option<string>, latest: Option<string>, exhausted: bool, exhaustedAt: Option<string>)

  /** A page noted: its cursors, and for a recent page whether history is exhausted.
      Once a page before some cursor found the end there, only such a page can
      change the answer. */
  function NotePaging(p: Paging, page: Page, before: bool, exhausted: bool): Paging {
    var c := NotePage(Cursors(p.oldest, p.latest), page);
    var q := p.(oldest := c.oldest, latest := c.latest);
    if !page.recent then q
    else if before then q.(exhausted := exhausted, exhaustedAt := if exhausted then c.oldest else None)
    else if Truthy(p.exhaustedAt) then q
    else q.(exhausted := exhausted)
  }

  function NotePages(pages: seq<Page>): Cursors {
    if pages == [] then Cursors(None, None) else NotePage(NotePages(pages[..|pages| - 1]), pages[|pages| - 1])
  }

  /** Every parsable sequence number seen in frames, and those seen at all. */
  function FrameSeqs(pages: seq<Page>): set<nat> {
    if pages == [] then {} else FrameSeqs(pages[..|pages| - 1]) + SeqsOf(pages[|pages| - 1].frames)
  }

  function AllSeqs(pages: seq<Page>): set<nat> {
    if pages == [] then {}
    else AllSeqs(pages[..|pages| - 1]) + SeqsOf(pages[|pages| - 1].frames) + SeqOf(PageCursor(pages[|pages| - 1]))
  }

  /** Over any pages the oldest cursor is the minimum and the latest the maximum
      parsable sequence seen, whatever unparsable cursors come in between. */
  lemma {:induction false} PagesKeepExtremes(pages: seq<Page>)
    ensures Lowest(NotePages(pages).oldest, FrameSeqs(pages))
    ensures Highest(NotePages(pages).latest, AllSeqs(pages))
  {
    if pages != [] {
      var init, page := pages[..|pages| - 1], pages[|pages| - 1];
      PagesKeepExtremes(init);
      var c := NotePages(init);
      OldestIsLowest(c.oldest, page.frames, FrameSeqs(init));
      LatestIsHighest(c.latest, page.frames, AllSeqs(init));
      NewerKeepsHighest(LatestOf(c.latest, page.frames), PageCursor(page), AllSeqs(init) + SeqsOf(page.frames));
    }
  }

  lemma {:induction false} SeqsOfPages(pages: seq<Page>, n: nat)
    ensures n in FrameSeqs(pages) <==> exists p :: p in pages && n in SeqsOf(p.frames)
    ensures n in AllSeqs(pages) <==> exists p :: p in pages && n in SeqsOf(p.frames) + SeqOf(PageCursor(p))
  {
    if pages != [] {
      SeqsOfPages(pages[..|pages| - 1], n);
      assert forall p :: p in pages <==> p in pages[..|pages| - 1] || p == pages[|pages| - 1];
    }
  }

  /** Two histories with the same pages, in any order, agree on both sequence numbers. */
  lemma PageOrderIsIrrelevant(p: seq<Page>, q: seq<Page>)
    requires multiset(p) == multiset(q)
    ensures CursorSeq(NotePages(p).oldest) == CursorSeq(NotePages(q).oldest)
    ensures CursorSeq(NotePages(p).latest) == CursorSeq(NotePages(q).latest)
  {
    SameSeqs(p, q);
    PagesKeepExtremes(p);
    PagesKeepExtremes(q);
  }

  lemma SameSeqs(p: seq<Page>, q: seq<Page>)
    requires multiset(p) == multiset(q)
    ensures FrameSeqs(p) == FrameSeqs(q) && AllSeqs(p) == AllSeqs(q)
  {
    forall x: Page ensures x in p <==> x in q {
      assert x in p <==> x in multiset(p);
      assert x in q <==> x in multiset(q);
    }
    forall n: nat ensures (n in FrameSeqs(p) <==> n in FrameSeqs(q)) && (n in AllSeqs(p) <==> n in AllSeqs(q)) {
      SeqsOfPages(p, n);
      SeqsOfPages(q, n);
    }
  }

  // ----- The object the console mutates -----

  datatype FrameUpdateResult = FrameUpdateResult(previous: Frame, next: Frame, moved: bool)

  method Filter(events: seq<Frame>, dropped: set<Frame>) returns (left: seq<Frame>)
    ensures left == Pick(events, KeptIndices(events, dropped, |events|))
  {
    left := [];
    for i := 0 to |events|
      invariant left == Pick(events, KeptIndices(events, dropped, i))
    {
      if events[i] !in dropped {
        left := left + [events[i]];
      }
    }
  }

  method RebuildIndex(frames: seq<Frame>) returns (byKey: map<string, nat>)
    ensures byKey == IndexOfAll(Keys(frames))
  {
    byKey := map[];
    for i := 0 to |frames|
      invariant byKey == IndexOfAll(Keys(frames)[..i])
    {
      assert Keys(frames)[..i + 1][..i] == Keys(frames)[..i];
      byKey := byKey[FrameKey(frames[i]) := i];
    }
    assert Keys(frames)[..|frames|] == Keys(frames);
  }

  method DropFirst(events: seq<Frame>, view: seq<Frame>, drop: nat) returns (left: seq<Frame>, byKey: map<string, nat>)
    requires drop <= |view|
    ensures left == Retained(events, view, drop) && byKey == IndexOfAll(Keys(left))
  {
    left := Filter(events, FirstFrames(view, drop));
    byKey := RebuildIndex(left);
  }

  lemma TrimIgnoresCache(s: Log, view: seq<Frame>, max: nat)
    requires |view| > max
    ensures TrimLog(s.(sorted := Some(view)), view, max) == TrimLog(s, view, max)
  {}

  /** The log after a trim that drops something. */
  method Trimmed(s: Log, view: seq<Frame>, max: nat) returns (t: Log)
    requires |view| > max
    ensures t == TrimLog(s, view, max)
  {
    var left, index := DropFirst(s.events, view, |view| - max);
    t := Log(left, index, s.version + 1, Some(view[|view| - max..]));
  }

  method OldestCursor(frames: seq<Frame>) returns (oldest: Option<string>)
    ensures oldest == OldestOf(None, frames) && Lowest(oldest, SeqsOf(frames))
  {
    oldest := None;
    for i := 0 to |frames|
      invariant OldestOf(oldest, frames[i..]) == OldestOf(None, frames)
    {
      assert frames[i..][1..] == frames[i + 1..];
      oldest := OlderCursor(oldest, frames[i].cursor);
    }
    OldestIsLowest(None, frames, {});
    assert {} + SeqsOf(frames) == SeqsOf(frames);
  }

  class Store {
    var events: seq<Frame>
    var byKey: map<string, nat>
    var version: nat
    var sorted: Option<seq<Frame>>
    var oldestTimelineCursor: Option<string>
    var latestTimelineCursor: Option<string>
    var olderHistoryExhausted: bool
    var olderHistoryExhaustedAtCursor: Option<string>

    ghost function Abs(): Log
      reads this
    {
      Log(events, byKey, version, sorted)
    }

    constructor ()
      ensures Abs() == EMPTY_LOG
      ensures oldestTimelineCursor.None? && latestTimelineCursor.None?
    {
      events, byKey, version, sorted := [], map[], 0, None;
      oldestTimelineCursor, latestTimelineCursor := None, None;
      olderHistoryExhausted, olderHistoryExhaustedAtCursor := false, None;
    }

    method SortedEvents() returns (view: seq<Frame>)
      modifies this`sorted
      ensures view == old(ViewOf(Abs())) && Abs() == old(Abs()).(sorted := Some(view))
    {
      if sorted.Some? {
        return sorted.value;
      }
      view := FullSort(events);
      sorted := Some(view);
    }

    method PushFrame(frame: Frame) returns (added: bool)
      modifies this`events, this`byKey, this`version, this`sorted
      ensures Abs() == PushLog(old(Abs()), frame)
      ensures added == (FrameKey(frame) !in old(byKey))
      ensures version == old(version) + if added then 1 else 0
    {
      var key := FrameKey(frame);
      if key in byKey {
        return false;
      }
      byKey := byKey[key := |events|];
      events := events + [frame];
      version := version + 1;
      if sorted.Some? {
        var view := InsertSorted(sorted.value, frame);
        sorted := Some(view);
      }
      added := true;
    }

    method MergeFrameUpdate(updated: Frame) returns (result: Option<FrameUpdateResult>)
      modifies this`events, this`version, this`sorted
      ensures Abs() == MergeLog(old(Abs()), updated)
      ensures result.Some? == old(UpdateTarget(Abs(), updated)).Some?
      ensures version == old(version) + if result.Some? then 1 else 0
      ensures result.Some? ==> var i := old(UpdateTarget(Abs(), updated)).value;
                && result.value.previous == old(events)[i] && result.value.next == events[i]
                && result.value.moved == Moves(old(events)[i], events[i])
    {
      if !Truthy(updated.id) || updated.id.value !in byKey {
        return None;
      }
      var index := byKey[updated.id.value];
      if index >= |events| {
        return None;
      }
      var previous := events[index];
      var existingVersion := VersionOf(previous);
      var updatedVersion := if updated.frameVersion.Some? then updated.frameVersion.value else existingVersion;
      if updatedVersion < existingVersion {
        return None;
      }
      var next := Spread(previous, updated);
      events := events[index := next];
      version := version + 1;
      var moved := Moves(previous, next);
      if moved {
        sorted := None;
      } else if sorted.Some? {
        var at := IndexOf(sorted.value, previous);
        if at >= 0 {
          sorted := Some(sorted.value[at := next]);
        } else {
          sorted := None;
        }
      }
      result := Some(FrameUpdateResult(previous, next, moved));
    }

    method TrimCore(max: nat) returns (retained: Option<seq<Frame>>)
      modifies this`events, this`byKey, this`version, this`sorted
      ensures Abs() == TrimLog(old(Abs()), old(ViewOf(Abs())), max)
      ensures retained == if old(|ViewOf(Abs())|) > max then Some(events) else None
    {
      var view := SortedEvents();
      if |view| <= max {
        return None;
      }
      var after := Trimmed(Log(events, byKey, version, sorted), view, max);
      TrimIgnoresCache(old(Abs()), view, max);
      events, byKey, version, sorted := after.events, after.byKey, after.version, after.sorted;
      retained := Some(events);
    }

    /** The replay sorts the array the log caches. */
    method SortForReplay(tie: (Frame, Frame) -> int) returns (ordered: seq<Frame>)
      modifies this`sorted
      ensures Abs() == Step(old(Abs()), Resort(tie)) && sorted == Some(ordered)
    {
      var view := SortedEvents();
      ordered := BusySort(view, tie);
      sorted := Some(ordered);
    }

    method Reset()
      modifies this
      ensures Abs() == Step(old(Abs()), IdentityLog.Reset)
      ensures oldestTimelineCursor.None? && latestTimelineCursor.None? && !olderHistoryExhausted
    {
      events, byKey, sorted := [], map[], None;
      version := version + 1;
      oldestTimelineCursor, latestTimelineCursor := None, None;
      olderHistoryExhausted, olderHistoryExhaustedAtCursor := false, None;
    }

    /** Append one frame; past the limit, trim to the ceiling and page from there. */
    method AppendFrame(frame: Frame) returns (added: bool)
      modifies this
      ensures Abs() == AppendLog(old(Abs()), frame)
      ensures added == (FrameKey(frame) !in old(byKey))
      ensures latestTimelineCursor == old(latestTimelineCursor)
      ensures oldestTimelineCursor ==
              if TrimsOn(old(Abs()), frame) then OldestOf(None, events) else old(oldestTimelineCursor)
    {
      added := PushFrame(frame);
      if added && |events| > LIMIT {
        var retained := TrimCore(MAX_IDENTITY_LOG_EVENTS);
        if retained.Some? {
          var oldest := OldestCursor(retained.value);
          oldestTimelineCursor := oldest;
          olderHistoryExhausted, olderHistoryExhaustedAtCursor := false, None;
        }
      }
    }

    ghost function PagingState(): Paging
      reads this
    {
      Paging(oldestTimelineCursor, latestTimelineCursor, olderHistoryExhausted, olderHistoryExhaustedAtCursor)
    }

    /** Note a page; `changed` when any of the paging state did. */
    method NoteTimelinePage(page: Page, before: bool, exhausted: bool) returns (changed: bool)
      modifies this`oldestTimelineCursor, this`latestTimelineCursor, this`olderHistoryExhausted,
               this`olderHistoryExhaustedAtCursor
      ensures PagingState() == NotePaging(old(PagingState()), page, before, exhausted)
      ensures changed <==> PagingState() != old(PagingState())
    {
      var oldest, latest := oldestTimelineCursor, latestTimelineCursor;
      var wasExhausted, wasExhaustedAt := olderHistoryExhausted, olderHistoryExhaustedAtCursor;
      for i := 0 to |page.frames|
        invariant OldestOf(oldestTimelineCursor, page.frames[i..]) == OldestOf(oldest, page.frames)
        invariant LatestOf(latestTimelineCursor, page.frames[i..]) == LatestOf(latest, page.frames)
        invariant olderHistoryExhausted == wasExhausted && olderHistoryExhaustedAtCursor == wasExhaustedAt
      {
        assert page.frames[i..][1..] == page.frames[i + 1..];
        oldestTimelineCursor := OlderCursor(oldestTimelineCursor, page.frames[i].cursor);
        latestTimelineCursor := NewerCursor(latestTimelineCursor, page.frames[i].cursor);
      }
      if page.recent {
        latestTimelineCursor := NewerCursor(latestTimelineCursor, page.latestCursor);
        if before {
          olderHistoryExhausted := exhausted;
          olderHistoryExhaustedAtCursor := if exhausted then oldestTimelineCursor else None;
        } else if !Truthy(olderHistoryExhaustedAtCursor) {
          olderHistoryExhausted := exhausted;
        }
      } else {
        latestTimelineCursor := NewerCursor(latestTimelineCursor, PageCursor(page));
      }
      changed := oldest != oldestTimelineCursor || latest != latestTimelineCursor
                 || wasExhausted != olderHistoryExhausted || wasExhaustedAt != olderHistoryExhaustedAtCursor;
    }
  }
}
