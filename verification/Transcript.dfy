/** The transcript order of a whole log: when it is an order at all, and what
    a correct transcript-order view of the log is. Views are described by the
    sequence of arrival indices they list, independently of how they are built. */
module Transcript {
  import opened Wrappers
  import opened Frames

  ghost predicate Distinct<T>(s: seq<T>) {
    forall i, j :: 0 <= i < j < |s| ==> s[i] != s[j]
  }

  ghost function Elements<T>(s: seq<T>): set<T> {
    set x | x in s
  }

  ghost function Below(n: nat): (s: set<nat>)
    ensures |s| == n && forall i: nat :: i in s <==> i < n
  {
    if n == 0 then {} else Below(n - 1) + {n - 1}
  }

  lemma {:induction false} DistinctSize<T>(s: seq<T>)
    requires Distinct(s)
    ensures |Elements(s)| == |s|
  {
    if s != [] {
      DistinctSize(s[1..]);
      assert Elements(s) == {s[0]} + Elements(s[1..]);
      assert s[0] !in s[1..];
    }
  }

  lemma SubsetOfSameSize<T>(a: set<T>, b: set<T>)
    requires a <= b && |a| == |b|
    ensures a == b
  {
    assert b == a + (b - a);
    assert |b| == |a| + |b - a|;
  }

  function PositionOf(s: seq<nat>, x: nat): (p: nat)
    requires x in s
    ensures p < |s| && s[p] == x
  {
    if s[0] == x then 0 else 1 + PositionOf(s[1..], x)
  }

  function Stamps(ev: seq<Frame>): (st: seq<Stamp>)
    ensures |st| == |ev|
    ensures forall i :: 0 <= i < |ev| ==> st[i] == StampOf(ev[i])
  {
    seq(|ev|, i requires 0 <= i < |ev| => StampOf(ev[i]))
  }

  /** Frame `i` comes before frame `j` of the log. */
  predicate Before(st: seq<Stamp>, i: nat, j: nat)
    requires i < |st| && j < |st|
  {
    StampOrder(st[i], i, st[j], j) < 0
  }

  /** `k` arrived last but its cursor is lower than `i`'s, and `j`, whose cursor
      does not parse, arrived between them: the three frames form a cycle. */
  predicate Wedge(st: seq<Stamp>, i: nat, j: nat, k: nat)
    requires i < |st| && j < |st| && k < |st|
  {
    && i < j < k
    && st[i].time == st[j].time == st[k].time
    && st[j].seqNo.None? && st[i].seqNo.Some? && st[k].seqNo.Some?
    && st[k].seqNo.value < st[i].seqNo.value
  }

  ghost predicate NoWedge(st: seq<Stamp>) {
    forall i: nat, j: nat, k: nat :: i < |st| && j < |st| && k < |st| ==> !Wedge(st, i, j, k)
  }

  /** Per timestamp, either all cursors parse or none does. */
  ghost predicate Homogeneous(st: seq<Stamp>) {
    forall i, j :: 0 <= i < |st| && 0 <= j < |st| && st[i].time == st[j].time
      ==> st[i].seqNo.Some? == st[j].seqNo.Some?
  }

  lemma HomogeneousHasNoWedge(st: seq<Stamp>)
    requires Homogeneous(st)
    ensures NoWedge(st)
  {}

  /** `idx` lists all arrival indices so that every pair is in transcript order. */
  ghost predicate IsTranscript(st: seq<Stamp>, idx: seq<nat>) {
    && |idx| == |st|
    && (forall k :: 0 <= k < |idx| ==> idx[k] < |st|)
    && (forall j, k :: 0 <= j < k < |idx| ==> Before(st, idx[j], idx[k]))
  }

  function Pick<T>(ev: seq<T>, idx: seq<nat>): (view: seq<T>)
    requires forall k :: 0 <= k < |idx| ==> idx[k] < |ev|
    ensures |view| == |idx|
    ensures forall k :: 0 <= k < |idx| ==> view[k] == ev[idx[k]]
  {
    seq(|idx|, k requires 0 <= k < |idx| => ev[idx[k]])
  }

  /** `view` is the log in transcript order. */
  ghost predicate Faithful(ev: seq<Frame>, view: seq<Frame>) {
    exists idx: seq<nat> :: IsTranscript(Stamps(ev), idx) && view == Pick(ev, idx)
  }

  lemma BeforeIsTransitive(st: seq<Stamp>, i: nat, j: nat, k: nat)
    requires NoWedge(st)
    requires i < |st| && j < |st| && k < |st|
    requires Before(st, i, j) && Before(st, j, k)
    ensures Before(st, i, k)
  {
    assert !Wedge(st, i, j, k) && !Wedge(st, j, k, i) && !Wedge(st, k, i, j);
  }

  /** A transcript lists distinct indices, hence every index of the log. */
  lemma TranscriptCovers(st: seq<Stamp>, idx: seq<nat>)
    requires IsTranscript(st, idx)
    ensures Distinct(idx)
    ensures forall i: nat :: i < |st| ==> i in idx
  {
    forall j, k | 0 <= j < k < |idx| ensures idx[j] != idx[k] {
      assert Before(st, idx[j], idx[k]);
    }
    DistinctSize(idx);
    SubsetOfSameSize(Elements(idx), Below(|st|));
    forall i: nat | i < |st| ensures i in idx {
      assert i in Below(|st|);
    }
  }

  lemma LaterPosition(st: seq<Stamp>, a: seq<nat>, b: seq<nat>, k: nat)
    requires IsTranscript(st, a) && IsTranscript(st, b) && k < |st|
    requires a[..k] == b[..k] && a[k] != b[k]
    ensures Before(st, b[k], a[k])
  {
    TranscriptCovers(st, a);
    TranscriptCovers(st, b);
    var m := PositionOf(b, a[k]);
    assert m >= k by {
      assert forall i :: 0 <= i < k ==> a[..k][i] == a[i] && b[..k][i] == b[i];
    }
  }

  lemma {:induction false} TranscriptPrefixUnique(st: seq<Stamp>, a: seq<nat>, b: seq<nat>, k: nat)
    requires IsTranscript(st, a) && IsTranscript(st, b) && k <= |st|
    ensures a[..k] == b[..k]
  {
    if k > 0 {
      TranscriptPrefixUnique(st, a, b, k - 1);
      if a[k - 1] != b[k - 1] {
        LaterPosition(st, a, b, k - 1);
        LaterPosition(st, b, a, k - 1);
        assert false;
      }
      assert a[..k] == a[..k - 1] + [a[k - 1]] && b[..k] == b[..k - 1] + [b[k - 1]];
    }
  }

  /** There is at most one transcript-order view of a log. */
  lemma FaithfulIsUnique(ev: seq<Frame>, v: seq<Frame>, w: seq<Frame>)
    requires Faithful(ev, v) && Faithful(ev, w)
    ensures v == w
  {
    var a: seq<nat> :| IsTranscript(Stamps(ev), a) && v == Pick(ev, a);
    var b: seq<nat> :| IsTranscript(Stamps(ev), b) && w == Pick(ev, b);
    TranscriptPrefixUnique(Stamps(ev), a, b, |ev|);
    assert a == a[..|ev|] == b[..|ev|] == b;
  }

  // ----- Adding the frame that arrives next -----

  /** The new frame belongs at `at`: behind everything that comes before it, in
      front of everything that comes after it. */
  ghost predicate SplitsAt(view: seq<Frame>, frame: Frame, at: nat) {
    && at <= |view|
    && (forall k :: 0 <= k < at ==> TranscriptOrder(view[k], 0, frame, 1) <= 0)
    && (forall k :: at <= k < |view| ==> TranscriptOrder(view[k], 0, frame, 1) > 0)
  }

  /** Along a transcript, the frames before the new one come first. */
  lemma PickIsMonotone(ev: seq<Frame>, idx: seq<nat>, frame: Frame, j: nat, k: nat)
    requires IsTranscript(Stamps(ev), idx) && NoWedge(Stamps(ev + [frame]))
    requires j < k < |idx| && TranscriptOrder(ev[idx[k]], 0, frame, 1) <= 0
    ensures TranscriptOrder(ev[idx[j]], 0, frame, 1) <= 0
  {
    var st, n := Stamps(ev + [frame]), |ev|;
    assert Before(Stamps(ev), idx[j], idx[k]);
    assert Before(st, idx[j], idx[k]) && Before(st, idx[k], n);
    BeforeIsTransitive(st, idx[j], idx[k], n);
  }

  function Insert<T>(s: seq<T>, at: nat, x: T): (t: seq<T>)
    requires at <= |s|
    ensures |t| == |s| + 1 && t[at] == x
    ensures forall k :: 0 <= k < at ==> t[k] == s[k]
    ensures forall k :: at < k < |t| ==> t[k] == s[k - 1]
  {
    s[..at] + [x] + s[at..]
  }

  lemma InsertTranscript(st: seq<Stamp>, idx: seq<nat>, stamp: Stamp, at: nat)
    requires IsTranscript(st, idx) && at <= |idx|
    requires forall k :: 0 <= k < at ==> StampOrder(st[idx[k]], 0, stamp, 1) <= 0
    requires forall k :: at <= k < |idx| ==> StampOrder(st[idx[k]], 0, stamp, 1) > 0
    ensures IsTranscript(st + [stamp], Insert(idx, at, |st|))
  {
    var more, idx' := st + [stamp], Insert(idx, at, |st|);
    forall j, k | 0 <= j < k < |idx'| ensures Before(more, idx'[j], idx'[k]) {
      if j == at {
        assert idx'[k] == idx[k - 1];
      } else if k == at {
        assert idx'[j] == idx[j];
      } else {
        var j', k' := if j < at then j else j - 1, if k < at then k else k - 1;
        assert Before(st, idx[j'], idx[k']);
      }
    }
  }

  lemma InsertKeepsFaithful(ev: seq<Frame>, view: seq<Frame>, frame: Frame, at: nat)
    requires Faithful(ev, view) && SplitsAt(view, frame, at)
    ensures Faithful(ev + [frame], Insert(view, at, frame))
  {
    var idx: seq<nat> :| IsTranscript(Stamps(ev), idx) && view == Pick(ev, idx);
    InsertTranscript(Stamps(ev), idx, StampOf(frame), at);
    StampsSnoc(ev, frame);
    InsertPick(ev, idx, frame, at);
  }

  lemma StampsSnoc(ev: seq<Frame>, frame: Frame)
    ensures Stamps(ev + [frame]) == Stamps(ev) + [StampOf(frame)]
  {}

  lemma InsertPick<T>(ev: seq<T>, idx: seq<nat>, x: T, at: nat)
    requires (forall k :: 0 <= k < |idx| ==> idx[k] < |ev|) && at <= |idx|
    ensures forall k :: 0 <= k <= |idx| ==> Insert(idx, at, |ev|)[k] <= |ev|
    ensures Insert(Pick(ev, idx), at, x) == Pick(ev + [x], Insert(idx, at, |ev|))
  {
    var more := Insert(idx, at, |ev|);
    assert forall k :: 0 <= k < |more| ==> more[k] <= |ev|;
    var a, b := Insert(Pick(ev, idx), at, x), Pick(ev + [x], more);
    forall k | 0 <= k < |a| ensures a[k] == b[k] {
      if k < at { assert more[k] == idx[k]; } else if k > at { assert more[k] == idx[k - 1]; }
    }
  }

  // ----- Replacing a frame in place -----

  /** Replacing a frame by one with the same timestamp and cursor sequence keeps its place. */
  lemma ReplaceKeepsFaithful(ev: seq<Frame>, view: seq<Frame>, i: nat, next: Frame, at: nat)
    requires Faithful(ev, view) && Distinct(ev) && i < |ev| && at < |view|
    requires view[at] == ev[i] && StampOf(ev[i]) == StampOf(next)
    ensures Faithful(ev[i := next], view[at := next])
  {
    var idx: seq<nat> :| IsTranscript(Stamps(ev), idx) && view == Pick(ev, idx);
    TranscriptCovers(Stamps(ev), idx);
    assert idx[at] == i;
    assert Stamps(ev[i := next]) == Stamps(ev);
    assert view[at := next] == Pick(ev[i := next], idx);
  }

  /** A faithful view lists exactly the frames of the log. */
  lemma FaithfulContents(ev: seq<Frame>, view: seq<Frame>)
    requires Faithful(ev, view)
    ensures |view| == |ev| && forall f :: f in view <==> f in ev
  {
    var idx: seq<nat> :| IsTranscript(Stamps(ev), idx) && view == Pick(ev, idx);
    TranscriptCovers(Stamps(ev), idx);
    forall f | f in ev ensures f in view {
      var i: nat :| i < |ev| && ev[i] == f;
      assert view[PositionOf(idx, i)] == f;
    }
  }

  // ----- Dropping a prefix of the view -----

  ghost predicate Increasing(s: seq<nat>) {
    forall i, j :: 0 <= i < j < |s| ==> s[i] < s[j]
  }

  /** Arrival indices below `n` of the frames outside `dropped`, in arrival order. */
  function KeptIndices(ev: seq<Frame>, dropped: set<Frame>, n: nat): (kept: seq<nat>)
    requires n <= |ev|
    ensures forall k :: 0 <= k < |kept| ==> kept[k] < n
  {
    if n == 0 then []
    else if ev[n - 1] in dropped then KeptIndices(ev, dropped, n - 1)
    else KeptIndices(ev, dropped, n - 1) + [n - 1]
  }

  lemma {:induction false} KeptSpec(ev: seq<Frame>, dropped: set<Frame>, n: nat)
    requires n <= |ev|
    ensures var kept := KeptIndices(ev, dropped, n);
            && Increasing(kept)
            && (forall k :: 0 <= k < |kept| ==> ev[kept[k]] !in dropped)
            && (forall i: nat :: i < n && ev[i] !in dropped ==> i in kept)
  {
    if n > 0 { KeptSpec(ev, dropped, n - 1); }
  }

  function FirstFrames(view: seq<Frame>, drop: nat): set<Frame>
    requires drop <= |view|
  {
    set f | f in view[..drop]
  }

  /** The arrival-order log without the first `drop` frames of the view. */
  function Retained(ev: seq<Frame>, view: seq<Frame>, drop: nat): seq<Frame>
    requires drop <= |view|
  {
    Pick(ev, KeptIndices(ev, FirstFrames(view, drop), |ev|))
  }

  lemma KeptIsTail(ev: seq<Frame>, idx: seq<nat>, drop: nat, p: nat)
    requires IsTranscript(Stamps(ev), idx) && Distinct(ev) && drop <= |idx| && p < |idx|
    ensures ev[idx[p]] in FirstFrames(Pick(ev, idx), drop) <==> p < drop
  {
    var view := Pick(ev, idx);
    TranscriptCovers(Stamps(ev), idx);
    if p < drop {
      assert view[..drop][p] == ev[idx[p]];
    } else {
      assert forall q :: 0 <= q < drop ==> view[..drop][q] == ev[idx[q]] && idx[q] != idx[p];
    }
  }

  lemma KeptAreTheRest(ev: seq<Frame>, idx: seq<nat>, drop: nat)
    requires IsTranscript(Stamps(ev), idx) && Distinct(ev) && drop <= |idx|
    ensures var kept := KeptIndices(ev, FirstFrames(Pick(ev, idx), drop), |ev|);
            |kept| == |ev| - drop && forall k :: drop <= k < |idx| ==> idx[k] in kept
  {
    var kept := KeptIndices(ev, FirstFrames(Pick(ev, idx), drop), |ev|);
    KeptSpec(ev, FirstFrames(Pick(ev, idx), drop), |ev|);
    TranscriptCovers(Stamps(ev), idx);
    forall i: nat ensures i in kept <==> i in idx[drop..] {
      if i < |ev| {
        var p := PositionOf(idx, i);
        KeptIsTail(ev, idx, drop, p);
        if p >= drop { assert idx[drop..][p - drop] == i; }
      }
    }
    assert Elements(kept) == Elements(idx[drop..]);
    DistinctSize(kept);
    DistinctSize(idx[drop..]);
    forall k | drop <= k < |idx| ensures idx[k] in kept {
      assert idx[k] == idx[drop..][k - drop];
    }
  }

  function Positions(kept: seq<nat>, xs: seq<nat>): (ps: seq<nat>)
    requires forall x :: x in xs ==> x in kept
    ensures |ps| == |xs|
    ensures forall k :: 0 <= k < |xs| ==> ps[k] < |kept| && kept[ps[k]] == xs[k]
  {
    seq(|xs|, k requires 0 <= k < |xs| => PositionOf(kept, xs[k]))
  }

  lemma SubTranscript(st: seq<Stamp>, idx: seq<nat>, drop: nat, kept: seq<nat>, idx': seq<nat>)
    requires IsTranscript(st, idx) && drop <= |idx| && Increasing(kept)
    requires forall k :: 0 <= k < |kept| ==> kept[k] < |st|
    requires |idx'| == |kept| == |idx| - drop
    requires forall k :: 0 <= k < |idx'| ==> idx'[k] < |kept| && kept[idx'[k]] == idx[drop + k]
    ensures IsTranscript(Pick(st, kept), idx')
  {
    var left := Pick(st, kept);
    forall j, k | 0 <= j < k < |idx'| ensures Before(left, idx'[j], idx'[k]) {
      assert Before(st, idx[drop + j], idx[drop + k]);
      assert idx'[j] < idx'[k] <==> kept[idx'[j]] < kept[idx'[k]];
    }
  }

  /** Trimming keeps the view faithful to what is left. */
  lemma TrimKeepsFaithful(ev: seq<Frame>, view: seq<Frame>, drop: nat)
    requires Faithful(ev, view) && Distinct(ev) && drop <= |view|
    ensures Faithful(Retained(ev, view, drop), view[drop..])
  {
    var idx: seq<nat> :| IsTranscript(Stamps(ev), idx) && view == Pick(ev, idx);
    var kept := KeptIndices(ev, FirstFrames(view, drop), |ev|);
    KeptSpec(ev, FirstFrames(view, drop), |ev|);
    KeptAreTheRest(ev, idx, drop);
    var idx' := Positions(kept, idx[drop..]);
    SubTranscript(Stamps(ev), idx, drop, kept, idx');
    StampsPick(ev, kept);
    PickTail(ev, idx, drop, kept, idx');
    FaithfulBy(Pick(ev, kept), view[drop..], idx');
  }

  lemma FaithfulBy(ev: seq<Frame>, view: seq<Frame>, idx: seq<nat>)
    requires IsTranscript(Stamps(ev), idx) && view == Pick(ev, idx)
    ensures Faithful(ev, view)
  {}

  lemma StampsPick(ev: seq<Frame>, kept: seq<nat>)
    requires forall k :: 0 <= k < |kept| ==> kept[k] < |ev|
    ensures Stamps(Pick(ev, kept)) == Pick(Stamps(ev), kept)
  {}

  lemma PickTail<T>(ev: seq<T>, idx: seq<nat>, drop: nat, kept: seq<nat>, idx': seq<nat>)
    requires (forall k :: 0 <= k < |idx| ==> idx[k] < |ev|) && (forall k :: 0 <= k < |kept| ==> kept[k] < |ev|)
    requires drop <= |idx| && |idx'| == |idx| - drop
    requires forall k :: 0 <= k < |idx'| ==> idx'[k] < |kept| && kept[idx'[k]] == idx[drop + k]
    ensures Pick(ev, idx)[drop..] == Pick(Pick(ev, kept), idx')
  {}

  // ----- Existence: a transcript exists exactly when no wedge does -----

  /** Insertion point by linear search from the back. */
  function Slot(view: seq<Frame>, frame: Frame): (at: nat)
    ensures at <= |view|
    ensures at > 0 ==> TranscriptOrder(view[at - 1], 0, frame, 1) <= 0
    ensures forall k :: at <= k < |view| ==> TranscriptOrder(view[k], 0, frame, 1) > 0
  {
    if view == [] then 0
    else if TranscriptOrder(view[|view| - 1], 0, frame, 1) <= 0 then |view|
    else Slot(view[..|view| - 1], frame)
  }

  lemma InsertAddsOne<T>(s: seq<T>, at: nat, x: T)
    requires at <= |s|
    ensures multiset(Insert(s, at, x)) == multiset(s) + multiset{x}
  {
    assert s == s[..at] + s[at..];
  }

  /** The library sort: arrival order, each frame put behind those that do not come after it. */
  function FullSort(ev: seq<Frame>): (view: seq<Frame>)
    ensures |view| == |ev|
    ensures multiset(view) == multiset(ev)
  {
    if ev == [] then []
    else
      var n := |ev| - 1;
      var view := FullSort(ev[..n]);
      assert ev == ev[..n] + [ev[n]];
      InsertAddsOne(view, Slot(view, ev[n]), ev[n]);
      Insert(view, Slot(view, ev[n]), ev[n])
  }

  lemma NoWedgePrefix(st: seq<Stamp>, n: nat)
    requires NoWedge(st) && n <= |st|
    ensures NoWedge(st[..n])
  {
    forall i: nat, j: nat, k: nat | i < n && j < n && k < n ensures !Wedge(st[..n], i, j, k) {
      assert !Wedge(st, i, j, k);
    }
  }

  lemma BeforeSlot(ev: seq<Frame>, idx: seq<nat>, frame: Frame, st: seq<Stamp>, at: nat, k: nat)
    requires IsTranscript(Stamps(ev), idx) && st == Stamps(ev + [frame]) && NoWedge(st)
    requires k < at <= |idx| && TranscriptOrder(ev[idx[at - 1]], 0, frame, 1) <= 0
    ensures TranscriptOrder(ev[idx[k]], 0, frame, 1) <= 0
  {
    if k < at - 1 { PickIsMonotone(ev, idx, frame, k, at - 1); }
  }

  lemma SlotSplitsPick(ev: seq<Frame>, idx: seq<nat>, frame: Frame, st: seq<Stamp>, view: seq<Frame>)
    requires IsTranscript(Stamps(ev), idx) && st == Stamps(ev + [frame]) && NoWedge(st) && view == Pick(ev, idx)
    ensures SplitsAt(view, frame, Slot(view, frame))
  {
    var at := Slot(view, frame);
    forall k | 0 <= k < at ensures TranscriptOrder(view[k], 0, frame, 1) <= 0 {
      assert view[at - 1] == ev[idx[at - 1]];
      BeforeSlot(ev, idx, frame, st, at, k);
    }
  }

  lemma SlotSplits(ev: seq<Frame>, view: seq<Frame>, frame: Frame)
    requires Faithful(ev, view) && NoWedge(Stamps(ev + [frame]))
    ensures SplitsAt(view, frame, Slot(view, frame))
  {
    var idx: seq<nat> :| IsTranscript(Stamps(ev), idx) && view == Pick(ev, idx);
    SlotSplitsPick(ev, idx, frame, Stamps(ev + [frame]), view);
  }

  lemma {:induction false} FullSortIsFaithful(ev: seq<Frame>)
    requires NoWedge(Stamps(ev))
    ensures Faithful(ev, FullSort(ev))
  {
    if ev == [] {
      assert IsTranscript(Stamps(ev), []) && FullSort(ev) == Pick(ev, []);
    } else {
      var n := |ev| - 1;
      var init, frame := ev[..n], ev[n];
      assert Stamps(init) == Stamps(ev)[..n];
      NoWedgePrefix(Stamps(ev), n);
      FullSortIsFaithful(init);
      assert ev == init + [frame];
      SlotSplits(init, FullSort(init), frame);
      InsertKeepsFaithful(init, FullSort(init), frame, Slot(FullSort(init), frame));
    }
  }

  lemma WedgeHasNoTranscript(st: seq<Stamp>, i: nat, j: nat, k: nat, idx: seq<nat>)
    requires i < |st| && j < |st| && k < |st| && Wedge(st, i, j, k)
    ensures !IsTranscript(st, idx)
  {
    if IsTranscript(st, idx) {
      TranscriptCovers(st, idx);
      var a, b, c := PositionOf(idx, i), PositionOf(idx, j), PositionOf(idx, k);
      assert false;
    }
  }

  /** A log has a transcript-order view if and only if it holds no wedge; the
      view is then unique and is what a full sort yields. */
  lemma TranscriptExistsIff(ev: seq<Frame>)
    ensures (exists view :: Faithful(ev, view)) <==> NoWedge(Stamps(ev))
    ensures forall view :: Faithful(ev, view) ==> view == FullSort(ev)
  {
    var st := Stamps(ev);
    forall view | Faithful(ev, view) ensures NoWedge(st) {
      var idx: seq<nat> :| IsTranscript(st, idx) && view == Pick(ev, idx);
      forall i: nat, j: nat, k: nat | i < |st| && j < |st| && k < |st| ensures !Wedge(st, i, j, k) {
        if Wedge(st, i, j, k) { WedgeHasNoTranscript(st, i, j, k, idx); }
      }
    }
    if NoWedge(st) {
      FullSortIsFaithful(ev);
      forall view | Faithful(ev, view) ensures view == FullSort(ev) {
        FaithfulIsUnique(ev, view, FullSort(ev));
      }
    }
  }

  function Stamped(id: string, cursor: string, ms: int): Frame {
    Frame(Some(id), Some(cursor), Some(ms), None, map[])
  }

  /** The three-frame cycle: cursors 2, none, 1 in arrival order at one timestamp. */
  lemma MixedCursorsCycle()
    ensures var ev := [Stamped("a", "console:2", 7), Stamped("b", "x", 7), Stamped("c", "console:1", 7)];
            var st := Stamps(ev);
            && Before(st, 0, 1) && Before(st, 1, 2) && Before(st, 2, 0)
            && (forall view :: !Faithful(ev, view))
  {
    var ev := [Stamped("a", "console:2", 7), Stamped("b", "x", 7), Stamped("c", "console:1", 7)];
    assert "console:2"[..8] == "console:" && "console:2"[8..] == "2";
    assert "console:1"[..8] == "console:" && "console:1"[8..] == "1";
    assert CursorSeq(Some("console:2")) == Some(2) by { assert DigitsValue("2") == 2; }
    assert CursorSeq(Some("console:1")) == Some(1) by { assert DigitsValue("1") == 1; }
    assert Wedge(Stamps(ev), 0, 1, 2);
    TranscriptExistsIff(ev);
  }
}
