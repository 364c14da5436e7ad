/** `runBounded` (examples/003-swarm-stress-pack/scenario.ts): workers share one
    counter and run one callback at a time. A schedule says which worker moves
    next; between awaits a worker moves without interruption. */
module BoundedPool {

  /** At the loop test, awaiting the callback of one index, or returned. */
  datatype Worker = Ready | Running(index: nat) | Returned

  datatype Pool = Pool(n: nat, next: nat, workers: seq<Worker>, started: seq<nat>, finished: set<nat>)

  function WorkerCount(n: nat, concurrency: int): nat {
    if concurrency <= 0 then 0 else if concurrency < n then concurrency else n
  }

  function Start(n: nat, concurrency: int): Pool {
    Pool(n, 0, seq(WorkerCount(n, concurrency), _ => Ready), [], {})
  }

  predicate Live(s: Pool, w: nat) {
    w < |s.workers| && !s.workers[w].Returned?
  }

  /** One move of worker `w`: take the next index, return, or see its callback resolve. */
  function Move(s: Pool, w: nat): Pool {
    if !Live(s, w) then s
    else match s.workers[w]
      case Running(i) => s.(workers := s.workers[w := Ready], finished := s.finished + {i})
      case _ =>
        if s.next < s.n
        then s.(next := s.next + 1, workers := s.workers[w := Running(s.next)], started := s.started + [s.next])
        else s.(workers := s.workers[w := Returned])
  }

  function Run(s: Pool, schedule: seq<nat>): Pool {
    if schedule == [] then s else Move(Run(s, schedule[..|schedule| - 1]), schedule[|schedule| - 1])
  }

  function CountRunning(ws: seq<Worker>): nat {
    if ws == [] then 0 else CountRunning(ws[1..]) + if ws[0].Running? then 1 else 0
  }

  /** A worker awaits the callback of index `i`. */
  ghost predicate Held(ws: seq<Worker>, i: nat) {
    exists w :: 0 <= w < |ws| && ws[w] == Running(i)
  }

  /** Indices are started in order, once each; what was started is finished or
      held by exactly one worker. */
  ghost predicate Sound(s: Pool, n: nat, concurrency: int) {
    && s.n == n && s.next <= n && |s.workers| == WorkerCount(n, concurrency)
    && |s.started| == s.next && (forall i :: 0 <= i < s.next ==> s.started[i] == i)
    && (forall i :: i in s.finished ==> i < s.next)
    && (forall w :: 0 <= w < |s.workers| && s.workers[w].Running? ==>
          s.workers[w].index < s.next && s.workers[w].index !in s.finished)
    && (forall v, w :: 0 <= v < w < |s.workers| && s.workers[v].Running? && s.workers[w].Running? ==>
          s.workers[v].index != s.workers[w].index)
    && (forall i: nat :: i < s.next && i !in s.finished ==> Held(s.workers, i))
    && (forall w :: 0 <= w < |s.workers| && s.workers[w].Returned? ==> s.next == n)
  }

  lemma MoveKeepsHeld(s: Pool, w: nat, n: nat, concurrency: int, i: nat)
    requires Sound(s, n, concurrency) && Live(s, w) && i < Move(s, w).next && i !in Move(s, w).finished
    ensures Held(Move(s, w).workers, i)
  {
    var t := Move(s, w);
    if i < s.next {
      var v :| 0 <= v < |s.workers| && s.workers[v] == Running(i);
      assert t.workers[v] == Running(i);
    } else {
      assert t.workers[w] == Running(i);
    }
  }

  lemma MoveKeepsSound(s: Pool, w: nat, n: nat, concurrency: int)
    requires Sound(s, n, concurrency)
    ensures Sound(Move(s, w), n, concurrency)
  {
    if Live(s, w) {
      forall i: nat | i < Move(s, w).next && i !in Move(s, w).finished ensures Held(Move(s, w).workers, i) {
        MoveKeepsHeld(s, w, n, concurrency, i);
      }
    }
  }

  lemma {:induction false} RunIsSound(n: nat, concurrency: int, schedule: seq<nat>)
    ensures Sound(Run(Start(n, concurrency), schedule), n, concurrency)
  {
    if schedule != [] {
      RunIsSound(n, concurrency, schedule[..|schedule| - 1]);
      MoveKeepsSound(Run(Start(n, concurrency), schedule[..|schedule| - 1]), schedule[|schedule| - 1], n, concurrency);
    }
  }

  lemma {:induction false} RunningAtMostAll(ws: seq<Worker>)
    ensures CountRunning(ws) <= |ws|
  {
    if ws != [] { RunningAtMostAll(ws[1..]); }
  }

  /** Under every schedule each index is started at most once, in order, and no
      more than min(concurrency, n) callbacks are in flight. */
  lemma StartedOnceAndBounded(n: nat, concurrency: int, schedule: seq<nat>)
    ensures var s := Run(Start(n, concurrency), schedule);
            && |s.started| <= n && (forall i :: 0 <= i < |s.started| ==> s.started[i] == i)
            && CountRunning(s.workers) <= WorkerCount(n, concurrency)
  {
    RunIsSound(n, concurrency, schedule);
    RunningAtMostAll(Run(Start(n, concurrency), schedule).workers);
  }

  // ----- Progress -----

  function Weight(w: Worker): nat {
    match w case Running(_) => 2 case Ready => 1 case Returned => 0
  }

  /** Work left: two moves per unstarted index, then what each worker still has to do. */
  function WorkLeft(ws: seq<Worker>): nat {
    if ws == [] then 0 else WorkLeft(ws[1..]) + Weight(ws[0])
  }

  function Measure(s: Pool): int {
    2 * (s.n - s.next) + WorkLeft(s.workers)
  }

  lemma {:induction false} WorkUpdate(ws: seq<Worker>, w: nat, x: Worker)
    requires w < |ws|
    ensures WorkLeft(ws[w := x]) == WorkLeft(ws) - Weight(ws[w]) + Weight(x)
  {
    if w == 0 {
      assert ws[w := x][1..] == ws[1..];
    } else {
      WorkUpdate(ws[1..], w - 1, x);
      assert ws[w := x][1..] == ws[1..][w - 1 := x];
    }
  }

  /** Every move of a live worker is progress. */
  lemma MoveDecreases(s: Pool, w: nat)
    requires Live(s, w) && s.next <= s.n
    ensures 0 <= Measure(Move(s, w)) == Measure(s) - 1
  {
    WorkUpdate(s.workers, w, Move(s, w).workers[w]);
  }

  lemma {:induction false} StartWork(ws: seq<Worker>)
    requires forall w :: 0 <= w < |ws| ==> ws[w].Ready?
    ensures WorkLeft(ws) == |ws|
  {
    if ws != [] { StartWork(ws[1..]); }
  }

  /** Every scheduled worker was live when it moved. */
  ghost predicate Effective(s: Pool, schedule: seq<nat>) {
    forall k :: 0 <= k < |schedule| ==> Live(Run(s, schedule[..k]), schedule[k])
  }

  lemma {:induction false} EffectiveMeasure(n: nat, concurrency: int, schedule: seq<nat>)
    requires Effective(Start(n, concurrency), schedule)
    ensures Measure(Run(Start(n, concurrency), schedule)) == 2 * n + WorkerCount(n, concurrency) - |schedule|
    ensures Measure(Run(Start(n, concurrency), schedule)) >= 0
  {
    var s0 := Start(n, concurrency);
    if schedule == [] {
      StartWork(s0.workers);
    } else {
      var k := |schedule| - 1;
      var init := schedule[..k];
      assert forall j :: 0 <= j < k ==> init[..j] == schedule[..j] && init[j] == schedule[j];
      EffectiveMeasure(n, concurrency, init);
      RunIsSound(n, concurrency, init);
      assert Live(Run(s0, schedule[..k]), schedule[k]);
      MoveDecreases(Run(s0, init), schedule[k]);
    }
  }

  /** No run makes more than 2n + min(concurrency, n) moves, and when no worker
      can move any more, every index has been started and finished, provided
      there is a worker or nothing to do. */
  lemma EveryRunFinishes(n: nat, concurrency: int, schedule: seq<nat>)
    requires Effective(Start(n, concurrency), schedule)
    ensures |schedule| <= 2 * n + WorkerCount(n, concurrency)
    ensures var s := Run(Start(n, concurrency), schedule);
            (forall w :: 0 <= w < |s.workers| ==> s.workers[w].Returned?) ==>
              (concurrency >= 1 || n == 0 <==> |s.started| == n && forall i: nat :: i < n ==> i in s.finished)
  {
    EffectiveMeasure(n, concurrency, schedule);
    RunIsSound(n, concurrency, schedule);
    var s := Run(Start(n, concurrency), schedule);
    if (forall w :: 0 <= w < |s.workers| ==> s.workers[w].Returned?) && concurrency >= 1 && n > 0 {
      assert s.workers[0].Returned?;
    }
  }
}
