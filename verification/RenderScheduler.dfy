/** The coalesced render scheduler of the console (console/src/ConsoleApp.tsx):
    requests share one pending callback, streamed text waits for the third
    animation frame, and hidden tabs use a timer. */
module RenderScheduler {
  import opened Wrappers

  const STREAM_TEXT_FRAMES: nat := 3

  datatype Cause = Text | Frame | Now

  datatype Kind = Raf | Timeout

  datatype Pending = Pending(kind: Kind, id: nat, textOnly: bool, frames: nat)

  /** `live` holds the callbacks the browser may still run; `commits` counts
      flushes. Live-frame buffers are numbered in the order they are handed over:
      `buffer` is the last one, `shown` the last one published. */
  datatype State = State(pending: Option<Pending>, dirty: bool, live: map<nat, Kind>, nextId: nat, hidden: bool,
                         commits: nat, buffer: nat, shown: nat)

  const IDLE := State(None, false, map[], 0, false, 0, 0, 0)

  // ----- The functions as state changes -----

  function Flush(s: State): State {
    s.(pending := None, dirty := false, commits := s.commits + 1, shown := if s.dirty then s.buffer else s.shown)
  }

  function Cancel(s: State): State {
    if s.pending.None? then s else s.(pending := None, live := s.live - {s.pending.value.id})
  }

  /** Register a callback with the browser under a new id. */
  function Register(s: State, kind: Kind): State {
    s.(live := s.live[s.nextId := kind], nextId := s.nextId + 1)
  }

  function ForceRender(s: State, cause: Cause): State {
    if cause.Now? then Flush(Cancel(s))
    else if s.pending.Some? then
      (if cause.Text? then s else s.(pending := Some(s.pending.value.(textOnly := false))))
    else
      var kind := if s.hidden then Timeout else Raf;
      Register(s, kind).(pending := Some(Pending(kind, s.nextId, kind.Raf? && cause.Text?, 0)))
  }

  function OnScheduledFrame(s: State): State {
    if s.pending.None? || !s.pending.value.kind.Raf? then s
    else
      var p := s.pending.value.(frames := s.pending.value.frames + 1);
      if p.textOnly && p.frames < STREAM_TEXT_FRAMES
      then Register(s, Raf).(pending := Some(p.(id := s.nextId)))
      else Flush(s)
  }

  datatype Event =
    | Request(cause: Cause)
    | CommitFrames(cause: Cause)
    | Fire(id: nat)
    | Visibility(visible: bool)

  predicate FiresLive(s: State, e: Event) {
    e.Fire? && e.id in s.live
  }

  function Step(s: State, e: Event): State {
    match e
    case Request(cause) => ForceRender(s, cause)
    case CommitFrames(cause) => ForceRender(s.(dirty := true, buffer := s.buffer + 1), cause)
    case Fire(id) =>
      if id !in s.live then s
      else
        var t := s.(live := s.live - {id});
        if s.live[id].Raf? then OnScheduledFrame(t) else Flush(t)
    case Visibility(visible) =>
      var t := s.(hidden := !visible);
      if visible && t.pending.Some? && t.pending.value.kind.Timeout? then Flush(Cancel(t)) else t
  }

  function Run(s: State, events: seq<Event>): State
    decreases |events|
  {
    if events == [] then s else Run(Step(s, events[0]), events[1..])
  }

  /** While mounted: exactly the pending callback is live, only an animation frame
      waits for text, and unpublished frames always have a flush coming. */
  ghost predicate Wired(s: State) {
    && s.shown <= s.buffer && (!s.dirty ==> s.shown == s.buffer)
    && match s.pending
       case None => s.live == map[] && !s.dirty
       case Some(p) =>
         && s.live == map[p.id := p.kind] && p.id < s.nextId
         && p.frames < STREAM_TEXT_FRAMES && (p.textOnly ==> p.kind.Raf?)
  }

  lemma StepKeepsWired(s: State, e: Event)
    requires Wired(s)
    ensures Wired(Step(s, e))
  {
    if s.pending.Some? {
      var p := s.pending.value;
      assert s.live - {p.id} == map[];
    }
  }

  /** In every reachable state at most one callback is live, and it is the one recorded. */
  lemma {:induction false} RunIsWired(s: State, events: seq<Event>)
    requires Wired(s)
    ensures Wired(Run(s, events))
    decreases |events|
  {
    if events != [] {
      StepKeepsWired(s, events[0]);
      RunIsWired(Step(s, events[0]), events[1..]);
    }
  }

  // ----- Deadlines -----

  /** Callbacks that may still run before the flush: three in all for streamed
      text, one for everything else. */
  function Deadline(s: State): int {
    if s.pending.None? then 0
    else if s.pending.value.textOnly then STREAM_TEXT_FRAMES - s.pending.value.frames
    else 1
  }

  function LiveFires(s: State, events: seq<Event>): nat
    decreases |events|
  {
    if events == [] then 0
    else LiveFires(Step(s, events[0]), events[1..]) + if FiresLive(s, events[0]) then 1 else 0
  }

  /** Nothing published is taken back, and a flush publishes the last buffer. */
  lemma FlushPublishes(s: State, e: Event)
    requires Wired(s)
    ensures Step(s, e).commits >= s.commits && Step(s, e).shown >= s.shown && Step(s, e).buffer >= s.buffer
    ensures Step(s, e).commits > s.commits ==> Step(s, e).shown == Step(s, e).buffer
  {}

  /** Without a flush, a callback uses up one of the remaining ones, and no
      request extends the wait. */
  lemma StepDeadline(s: State, e: Event)
    requires Wired(s) && s.pending.Some? && Step(s, e).commits == s.commits
    ensures var t := Step(s, e);
            t.pending.Some? && 0 < Deadline(t) && Deadline(t) + (if FiresLive(s, e) then 1 else 0) <= Deadline(s)
  {}

  lemma {:induction false} RunPublishes(s: State, events: seq<Event>)
    requires Wired(s)
    ensures Run(s, events).commits >= s.commits && Run(s, events).shown >= s.shown
    decreases |events|
  {
    if events != [] {
      FlushPublishes(s, events[0]);
      StepKeepsWired(s, events[0]);
      RunPublishes(Step(s, events[0]), events[1..]);
    }
  }

  /** Whatever else happens, a pending flush runs by its deadline and publishes
      the buffer held now or a later one. */
  lemma {:induction false} FlushByDeadline(s: State, events: seq<Event>)
    requires Wired(s) && s.pending.Some? && LiveFires(s, events) >= Deadline(s)
    ensures Run(s, events).commits > s.commits && Run(s, events).shown >= s.buffer
    decreases |events|
  {
    if events != [] {
      var t := Step(s, events[0]);
      FlushPublishes(s, events[0]);
      StepKeepsWired(s, events[0]);
      if t.commits == s.commits {
        StepDeadline(s, events[0]);
        FlushByDeadline(t, events[1..]);
      } else {
        RunPublishes(t, events[1..]);
      }
    }
  }

  /** From any request: "now" commits at once, other non-text causes by the next
      callback, text by the third. */
  lemma RequestDeadlines(s: State, cause: Cause)
    requires Wired(s)
    ensures var t := Step(s, Request(cause));
            && (cause.Now? ==> t.commits == s.commits + 1 && t.pending.None? && t.live == map[])
            && (cause.Frame? ==> t.pending.Some? && Deadline(t) == 1)
            && (cause.Text? ==> t.pending.Some? && Deadline(t) <= STREAM_TEXT_FRAMES)
            && (cause.Text? && s.pending.Some? ==> Deadline(t) == Deadline(s))
  {
    if s.pending.Some? { assert s.live - {s.pending.value.id} == map[]; }
  }

  /** A buffer handed over in any reachable state is published, itself or a later one:
      at once by a "now" commit, by the third callback when it is streamed text, and
      by the next callback otherwise. */
  lemma CommittedFramesArePublished(history: seq<Event>, cause: Cause, events: seq<Event>)
    requires var s := Step(Run(IDLE, history), CommitFrames(cause));
             cause.Now? || LiveFires(s, events) >= if cause.Text? then STREAM_TEXT_FRAMES else 1
    ensures var s := Step(Run(IDLE, history), CommitFrames(cause));
            s.buffer == Run(IDLE, history).buffer + 1 && Run(s, events).shown >= s.buffer
  {
    RunIsWired(IDLE, history);
    StepKeepsWired(Run(IDLE, history), CommitFrames(cause));
    var s := Step(Run(IDLE, history), CommitFrames(cause));
    if cause.Now? { RunPublishes(s, events); } else { FlushByDeadline(s, events); }
  }

  /** A callback that was cancelled or has run changes nothing. */
  lemma StaleCallbackIsIgnored(s: State, id: nat)
    requires Wired(s) && (s.pending.None? || id != s.pending.value.id)
    ensures Step(s, Fire(id)) == s
  {}

  // ----- The refs the component mutates -----

  class Scheduler {
    var pending: Option<Pending>
    var dirty: bool
    var live: map<nat, Kind>
    var nextId: nat
    var hidden: bool
    var commits: nat
    var buffer: nat
    var shown: nat

    ghost function Abs(): State
      reads this
    {
      State(pending, dirty, live, nextId, hidden, commits, buffer, shown)
    }

    constructor ()
      ensures Abs() == IDLE && Wired(Abs())
    {
      pending, dirty, live, nextId, hidden := None, false, map[], 0, false;
      commits, buffer, shown := 0, 0, 0;
    }

    method FlushScheduledRender()
      modifies this
      ensures Abs() == Flush(old(Abs()))
    {
      pending := None;
      if dirty {
        dirty := false;
        shown := buffer;
      }
      commits := commits + 1;
    }

    method CancelScheduledRender()
      modifies this
      ensures Abs() == Cancel(old(Abs()))
    {
      if pending.None? {
        return;
      }
      live := live - {pending.value.id};
      pending := None;
    }

    method AddCallback(kind: Kind) returns (id: nat)
      modifies this
      ensures id == old(nextId) && Abs() == Register(old(Abs()), kind)
    {
      id := nextId;
      live := live[id := kind];
      nextId := nextId + 1;
    }

    method RequestRender(cause: Cause)
      modifies this
      ensures Abs() == ForceRender(old(Abs()), cause)
    {
      if cause.Now? {
        CancelScheduledRender();
        FlushScheduledRender();
        return;
      }
      if pending.Some? {
        if !cause.Text? {
          pending := Some(pending.value.(textOnly := false));
        }
        return;
      }
      if !hidden {
        var id := AddCallback(Raf);
        pending := Some(Pending(Raf, id, cause.Text?, 0));
      } else {
        var id := AddCallback(Timeout);
        pending := Some(Pending(Timeout, id, false, 0));
      }
    }

    method CommitLiveFrames(cause: Cause)
      requires Wired(Abs())
      modifies this
      ensures Abs() == Step(old(Abs()), CommitFrames(cause)) && Wired(Abs())
      ensures !cause.Now? ==> dirty && pending.Some?
    {
      StepKeepsWired(Abs(), CommitFrames(cause));
      buffer := buffer + 1;
      dirty := true;
      RequestRender(cause);
    }

    /** The browser runs a callback it still holds. */
    method RunCallback(id: nat)
      requires Wired(Abs()) && id in live
      modifies this
      ensures Abs() == Step(old(Abs()), Fire(id)) && Wired(Abs())
    {
      StepKeepsWired(Abs(), Fire(id));
      var kind := live[id];
      live := live - {id};
      if kind.Timeout? {
        FlushScheduledRender();
        return;
      }
      if pending.None? || !pending.value.kind.Raf? {
        return;
      }
      var p := pending.value.(frames := pending.value.frames + 1);
      if p.textOnly && p.frames < STREAM_TEXT_FRAMES {
        var next := AddCallback(Raf);
        pending := Some(p.(id := next));
        return;
      }
      FlushScheduledRender();
    }

    method OnVisibilityChange(visible: bool)
      requires Wired(Abs())
      modifies this
      ensures Abs() == Step(old(Abs()), Visibility(visible)) && Wired(Abs())
    {
      StepKeepsWired(Abs(), Visibility(visible));
      hidden := !visible;
      if !visible || pending.None? || !pending.value.kind.Timeout? {
        return;
      }
      CancelScheduledRender();
      FlushScheduledRender();
    }
  }
}
