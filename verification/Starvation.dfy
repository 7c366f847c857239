/** Why bounded waiting needs its hypothesis: with m older processes of priority `top` and
    m + top >= 16, a run from boot leads to a state in which some older process is at the cap at
    every scheduling decision, so that a younger process is never chosen again. */
module Starvation {
  import opened Lists
  import opened Processes
  import opened ProcessSafety
  import opened BoundedWaiting

  // ---------- the crowd ----------

  /** The pid of slot i when the first process has forked all others, one after the other. */
  function PidOf(i: nat): nat { if i == 0 then 0 else i + 1 }

  /** In the scheduler: slots 0 to m - 1 are RUNNABLE with priority `top`, slot m, the youngest, is
      RUNNABLE too, and nobody else is there. */
  ghost predicate Crowd(w: World, m: nat, top: int, priority: int) {
    && 0 < m < NPROC && w.current == -1
    && (forall i :: 0 <= i <= m ==>
          && w.procs[i].state == RUNNABLE && w.procs[i].pid == PidOf(i)
          && w.procs[i].priority == if i < m then top else priority)
    && (forall i :: m < i < NPROC ==> w.procs[i].state == UNUSED)
  }

  /** The older slots whose boost is below j. */
  ghost function Low(w: World, m: nat, j: int): set<int>
    requires m < NPROC
  {
    set i | 0 <= i < m && w.procs[i].boost < j
  }

  /** At most j of the older slots have a boost below j, for every j up to r: only one process runs
      in a round, and everybody else ages. */
  ghost predicate Spread(w: World, m: nat, r: int)
    requires m < NPROC
  {
    forall j :: 0 <= j <= r ==> |Low(w, m, j)| <= j
  }

  /** With more older processes than steps to the cap, one of them is at the cap. */
  lemma SomebodyAtCap(w: World, m: nat, top: int) returns (c: nat)
    requires m < NPROC && m + top > PRIORITY_MAX && top <= PRIORITY_MAX && Spread(w, m, PRIORITY_MAX - top)
    ensures c < m && w.procs[c].boost >= PRIORITY_MAX - top
  {
    var low := Low(w, m, PRIORITY_MAX - top);
    assert |low| <= PRIORITY_MAX - top;
    assert UpTo(m) == low + (UpTo(m) - low);
    var x :| x in UpTo(m) - low;
    c := x;
  }

  // ---------- one turn ----------

  /** Slot c on the processor. */
  function OnCpu(w: World, c: nat): World
    requires c < NPROC
  {
    w.(procs := w.procs[c := w.procs[c].(state := RUNNING, boost := 0, chan := Nothing)], current := c)
  }

  /** The world after the scheduler's choice has run and yielded. */
  function Turn(w: World): World { Next(Next(w, Dispatch), Yield) }

  lemma TurnRuns(w: World, m: nat, top: int, priority: int)
    requires Inv(w) && Crowd(w, m, top, priority)
    ensures var c := Pick(w.procs); 0 <= c <= m && Dispatches(w, Dispatch) && Next(w, Dispatch) == OnCpu(w, c)
  {
    hide Inv, Pick, Effective;
    PickIsBest(w.procs);
    assert w.procs[m].state == RUNNABLE;
  }

  lemma TurnYields(w: World, c: nat, i: nat)
    requires c < NPROC && i < NPROC
    ensures var w2 := Next(OnCpu(w, c), Yield);
            && w2.current == -1
            && w2.procs[i] == if i == c then w.procs[c].(state := RUNNABLE, boost := 0, chan := Nothing)
                              else Boosted(w.procs[i])
  {}

  lemma TurnKeepsCrowd(w: World, m: nat, top: int, priority: int)
    requires Inv(w) && Crowd(w, m, top, priority)
    ensures Crowd(Turn(w), m, top, priority) && Inv(Turn(w))
  {
    hide Inv, Pick, Next, OnCpu;
    TurnRuns(w, m, top, priority);
    var c := Pick(w.procs);
    StepKeeps(w, Dispatch);
    StepKeeps(Next(w, Dispatch), Yield);
    var w' := Turn(w);
    assert w'.current == -1 by { TurnYields(w, c, 0); }
    forall i | 0 <= i < NPROC
      ensures && w'.procs[i].pid == w.procs[i].pid && w'.procs[i].priority == w.procs[i].priority
              && w'.procs[i].state == (if i == c then RUNNABLE else w.procs[i].state)
    {
      TurnYields(w, c, i);
    }
  }

  lemma TurnSpreads(w: World, m: nat, top: int, priority: int, r: int)
    requires Inv(w) && Crowd(w, m, top, priority) && 0 <= r < PRIORITY_MAX - top + 1 && Spread(w, m, r)
    ensures Spread(Turn(w), m, if r < PRIORITY_MAX - top then r + 1 else r)
  {
    hide Inv, Pick, Next, OnCpu;
    TurnRuns(w, m, top, priority);
    var c, w' := Pick(w.procs), Turn(w);
    forall j | 0 <= j <= (if r < PRIORITY_MAX - top then r + 1 else r) ensures |Low(w', m, j)| <= j {
      if j == 0 {
        BoostsArePositive(w, m, top, priority);
        assert Low(w', m, 0) == {};
      } else {
        LowShrinks(w, m, top, priority, j);
        SubsetBound(Low(w', m, j), Low(w, m, j - 1), c);
      }
    }
  }

  lemma BoostsArePositive(w: World, m: nat, top: int, priority: int)
    requires Inv(w) && Crowd(w, m, top, priority)
    ensures forall i :: 0 <= i < m ==> Turn(w).procs[i].boost >= 0
  {
    hide Next, Numbered, Parented, NoLostWakeup, Accounted;
    TurnKeepsCrowd(w, m, top, priority);
  }

  /** Whoever is below j after the turn was below j - 1 before, or has just run. */
  lemma LowShrinks(w: World, m: nat, top: int, priority: int, j: int)
    requires Inv(w) && Crowd(w, m, top, priority) && 0 < j <= PRIORITY_MAX - top
    ensures Low(Turn(w), m, j) <= Low(w, m, j - 1) + {Pick(w.procs)}
  {
    hide Inv, Pick, Next, OnCpu;
    TurnRuns(w, m, top, priority);
    var c := Pick(w.procs);
    forall i | i in Low(Turn(w), m, j) ensures i in Low(w, m, j - 1) + {c} {
      TurnYields(w, c, i);
    }
  }

  lemma SubsetBound(a: set<int>, b: set<int>, c: int)
    requires a <= b + {c}
    ensures |a| <= |b| + 1
  {
    SubsetSize(a, b + {c});
  }

  /** With the boosts spread up to the cap, the scheduler passes the youngest over. */
  lemma YoungestLoses(w: World, m: nat, top: int, priority: int)
    requires Inv(w) && Crowd(w, m, top, priority) && m + top > PRIORITY_MAX && top <= PRIORITY_MAX
    requires Spread(w, m, PRIORITY_MAX - top)
    ensures Pick(w.procs) < m
  {
    PickIsBest(w.procs);
    hide Pick, Inv, Numbered, Parented, NoLostWakeup, Accounted;
    var c := SomebodyAtCap(w, m, top);
    assert w.procs[c].state == RUNNABLE && Effective(w.procs[c]) == PRIORITY_MAX;
    assert w.procs[c].pid < w.procs[m].pid;
  }

  // ---------- turns without end ----------

  function Turns(n: nat): seq<Event> {
    if n == 0 then [] else [Dispatch, Yield] + Turns(n - 1)
  }

  lemma TurnWaits(w: World, m: nat, top: int, priority: int, c: nat)
    requires Crowd(w, m, top, priority) && c < m
    ensures Waiting(w, m, top) && Waiting(OnCpu(w, c), m, top)
  {}

  lemma TwoSteps(w: World, w1: World, w2: World, rest: seq<Event>, p: nat, top: int)
    requires p < NPROC && Waiting(w, p, top) && Waiting(w1, p, top) && Waits(w2, rest, p, top)
    requires w1 == Next(w, Dispatch) && w2 == Next(w1, Yield) && Dispatches(w, Dispatch)
    ensures Waits(w, [Dispatch, Yield] + rest, p, top)
    ensures Rounds(w, [Dispatch, Yield] + rest) == 1 + Rounds(w2, rest)
  {
    hide Next, Waiting, Pick;
    var es := [Dispatch, Yield] + rest;
    assert es[1..][0] == Yield && es[1..][1..] == rest;
    assert Waits(w1, es[1..], p, top);
    assert Rounds(w1, es[1..]) == Rounds(w2, rest);
  }

  lemma {:induction false} TurnsStarve(w: World, m: nat, top: int, priority: int, n: nat)
    requires Inv(w) && Crowd(w, m, top, priority) && m + top > PRIORITY_MAX && 0 <= top <= PRIORITY_MAX
    requires Spread(w, m, PRIORITY_MAX - top)
    ensures Waits(w, Turns(n), m, top) && Rounds(w, Turns(n)) == n
    decreases n
  {
    hide Next, Inv, Pick, OnCpu, Waiting, Spread;
    YoungestLoses(w, m, top, priority);
    TurnRuns(w, m, top, priority);
    TurnWaits(w, m, top, priority, Pick(w.procs));
    if n > 0 {
      TurnKeepsCrowd(w, m, top, priority);
      TurnSpreads(w, m, top, priority, PRIORITY_MAX - top);
      hide Crowd;
      TurnsStarve(Turn(w), m, top, priority, n - 1);
      TwoSteps(w, Next(w, Dispatch), Turn(w), Turns(n - 1), m, top);
    }
  }

  // ---------- how to get there from boot ----------

  lemma {:induction false} RunConcat(w: World, a: seq<Event>, b: seq<Event>)
    ensures Run(w, a + b) == Run(Run(w, a), b)
    decreases |a|
  {
    hide Next;
    if |a| == 0 {
      assert a + b == b;
    } else {
      assert (a + b)[1..] == a[1..] + b;
      RunConcat(Next(w, a[0]), a[1..], b);
    }
  }

  function Forks(n: nat): seq<Event> {
    if n == 0 then [] else Forks(n - 1) + [Fork]
  }

  /** The first process runs with priority `now` and has filled slots 1 to c - 1. */
  ghost predicate Filling(w: World, c: nat, top: int, now: int) {
    && 0 < c <= NPROC && w.current == 0 && w.nextpid == c + 1
    && w.procs[0].state == RUNNING && w.procs[0].pid == 0 && w.procs[0].priority == now && w.procs[0].boost == 0
    && (forall i :: 0 < i < c ==>
          w.procs[i].state == RUNNABLE && w.procs[i].pid == i + 1 && w.procs[i].priority == top)
    && (forall i :: c <= i < NPROC ==> w.procs[i].state == UNUSED)
  }

  lemma ForkFills(w: World, c: nat, top: int, now: int)
    requires Filling(w, c, top, now) && c < NPROC
    ensures var w' := Next(w, Fork);
            && w'.current == 0 && w'.nextpid == c + 2
            && w'.procs == w.procs[c := Forked(w.procs[c], c + 1, 0, w.procs[0])]
            && (now == top ==> Filling(w', c + 1, top, now))
  {
    hide FirstUnused;
    assert w.procs[c].state == UNUSED;
    assert FirstUnused(w.procs, 0) == c;
  }

  lemma {:induction false} ForksFill(w: World, c: nat, top: int, n: nat)
    requires Filling(w, c, top, top) && c + n <= NPROC
    ensures Filling(Run(w, Forks(n)), c + n, top, top)
    decreases n
  {
    hide Next;
    if n > 0 {
      ForksFill(w, c, top, n - 1);
      RunConcat(w, Forks(n - 1), [Fork]);
      var w1 := Run(w, Forks(n - 1));
      ForkFills(w1, c + n - 1, top, top);
      RunOne(w1, Fork);
    }
  }

  lemma RunOne(w: World, e: Event)
    ensures Run(w, [e]) == Next(w, e)
  {
    hide Next;
    assert [e][1..] == [];
  }

  /** The first process gets the processor, takes priority `top`, and forks the older ones. */
  function Opening(m: nat, top: int): seq<Event>
    requires m > 0
  {
    [Dispatch, SetPriority(top)] + Forks(m - 1)
  }

  /** It forks the youngest with the other priority, takes its own back, and yields; then everybody
      has had time to age. */
  function Setup(m: nat, top: int, priority: int): seq<Event>
    requires m > 0 && top <= PRIORITY_MAX
  {
    Opening(m, top) + [SetPriority(priority), Fork, SetPriority(top), Yield] + Turns(PRIORITY_MAX - top)
  }

  lemma OpeningFills(m: nat, top: int)
    requires 0 < m < NPROC && PRIORITY_MIN <= top <= PRIORITY_MAX
    ensures Filling(Run(Boot(), Opening(m, top)), m, top, top)
  {
    FirstIsPicked();
    var w1 := Next(Boot(), Dispatch);
    var w2 := Next(w1, SetPriority(top));
    hide Pick;
    assert Filling(w2, 1, top, top);
    hide Next, Boot;
    ForksFill(w2, 1, top, m - 1);
    RunConcat(Boot(), [Dispatch, SetPriority(top)], Forks(m - 1));
    RunConcat(Boot(), [Dispatch], [SetPriority(top)]);
    assert [Dispatch] + [SetPriority(top)] == [Dispatch, SetPriority(top)];
    RunOne(Boot(), Dispatch);
    RunOne(w1, SetPriority(top));
  }

  lemma FirstIsPicked()
    ensures Pick(Boot().procs) == 0
  {
    hide Pick, Effective;
    PickIsBest(Boot().procs);
    assert Boot().procs[0].state == RUNNABLE;
  }

  /** The last four steps of the first process. */
  function Closing(w: World, top: int, priority: int): World {
    Next(Next(Next(Next(w, SetPriority(priority)), Fork), SetPriority(top)), Yield)
  }

  lemma ClosingCrowds(w: World, m: nat, top: int, priority: int)
    requires Filling(w, m, top, top) && m < NPROC
    requires PRIORITY_MIN <= top <= PRIORITY_MAX && PRIORITY_MIN <= priority <= PRIORITY_MAX
    ensures Crowd(Closing(w, top, priority), m, top, priority)
  {
    var w1 := Next(w, SetPriority(priority));
    assert Filling(w1, m, top, priority);
    ForkFills(w1, m, top, priority);
    var w2 := Next(w1, Fork);
    hide FirstUnused;
    LastYield(w2, m, top, priority);
  }

  lemma LastYield(w: World, m: nat, top: int, priority: int)
    requires 0 < m < NPROC && w.current == 0 && PRIORITY_MIN <= top <= PRIORITY_MAX && w.procs[0].pid == 0
    requires forall i :: 0 < i <= m ==>
               && w.procs[i].state == RUNNABLE && w.procs[i].pid == i + 1
               && w.procs[i].priority == if i < m then top else priority
    requires forall i :: m < i < NPROC ==> w.procs[i].state == UNUSED
    ensures Crowd(Next(Next(w, SetPriority(top)), Yield), m, top, priority)
  {}

  lemma {:induction false} TurnsSpread(w: World, m: nat, top: int, priority: int, n: nat)
    requires Inv(w) && Crowd(w, m, top, priority) && PRIORITY_MIN <= top && n <= PRIORITY_MAX - top
    ensures var w' := Run(w, Turns(n)); Inv(w') && Crowd(w', m, top, priority) && Spread(w', m, n)
    decreases n
  {
    hide Next, Inv, Pick, OnCpu;
    if n == 0 {
      NobodyNegative(w, m);
    } else {
      TurnsLast(w, n);
      TurnsSpread(w, m, top, priority, n - 1);
      var w1 := Run(w, Turns(n - 1));
      TurnKeepsCrowd(w1, m, top, priority);
      TurnSpreads(w1, m, top, priority, n - 1);
    }
  }

  lemma NobodyNegative(w: World, m: nat)
    requires Inv(w) && m < NPROC
    ensures Spread(w, m, 0)
  {
    assert Low(w, m, 0) == {};
  }

  lemma {:induction false} TurnsLast(w: World, n: nat)
    requires n > 0
    ensures Run(w, Turns(n)) == Turn(Run(w, Turns(n - 1)))
    decreases n
  {
    hide Next;
    var two := [Dispatch, Yield];
    RunTurn(w);
    RunConcat(w, two, Turns(n - 1));
    if n > 1 {
      TurnsLast(Turn(w), n - 1);
      RunConcat(w, two, Turns(n - 2));
    }
  }

  lemma RunTurn(w: World)
    ensures Run(w, [Dispatch, Yield]) == Turn(w)
  {
    hide Next;
    assert [Dispatch] + [Yield] == [Dispatch, Yield];
    RunConcat(w, [Dispatch], [Yield]);
    RunOne(w, Dispatch);
    RunOne(Next(w, Dispatch), Yield);
  }

  lemma RunClosing(w: World, top: int, priority: int)
    ensures Run(w, [SetPriority(priority), Fork, SetPriority(top), Yield]) == Closing(w, top, priority)
  {
    hide Next;
    var es := [SetPriority(priority), Fork, SetPriority(top), Yield];
    var w1 := Next(w, SetPriority(priority));
    var w2 := Next(w1, Fork);
    var w3 := Next(w2, SetPriority(top));
    RunOne(w3, Yield);
    assert es[1..][1..][1..] == [Yield];
    assert Run(w2, es[1..][1..]) == Run(w3, [Yield]);
    assert Run(w1, es[1..]) == Run(w2, es[1..][1..]);
  }

  lemma SetupSpreads(m: nat, top: int, priority: int)
    requires 0 < m < NPROC && PRIORITY_MIN <= top <= PRIORITY_MAX && PRIORITY_MIN <= priority <= PRIORITY_MAX
    ensures var w := Run(Boot(), Setup(m, top, priority));
            Inv(w) && Crowd(w, m, top, priority) && Spread(w, m, PRIORITY_MAX - top)
  {
    hide Next, Inv, Filling, Crowd, Spread, Closing, Boot, Opening;
    var last := [SetPriority(priority), Fork, SetPriority(top), Yield];
    var opening := Opening(m, top);
    var w1 := Run(Boot(), opening);
    OpeningFills(m, top);
    ClosingCrowds(w1, m, top, priority);
    RunClosing(w1, top, priority);
    RunConcat(Boot(), opening, last);
    var w2 := Run(Boot(), opening + last);
    BootIsSafe();
    RunsAreSafe(Boot(), opening + last);
    TurnsSpread(w2, m, top, priority, PRIORITY_MAX - top);
    RunConcat(Boot(), opening + last, Turns(PRIORITY_MAX - top));
  }

  lemma {:induction false} OlderCount(w: World, m: nat, top: int, priority: int, n: nat)
    requires Crowd(w, m, top, priority) && 0 < n <= m
    ensures |Older(w, PidOf(n))| == n
  {
    if n == 1 {
      assert w.procs[0].pid == 0;
      assert Older(w, 2) == {0};
    } else {
      OlderCount(w, m, top, priority, n - 1);
      assert w.procs[n - 1].pid == n;
      assert Older(w, n + 1) == Older(w, n) + {n};
    }
  }

  /** The hypothesis m + top <= 15 cannot be weakened: as soon as m + top >= 16, a run from boot
      leads to a state with exactly m older processes, none above priority top, from which a RUNNABLE
      process of any priority is passed over n times in a row, for every n. */
  lemma AgingCanStarve(m: nat, top: int, priority: int, n: nat)
    requires 0 < m < NPROC && PRIORITY_MIN <= top <= PRIORITY_MAX && m + top > PRIORITY_MAX
    requires PRIORITY_MIN <= priority <= PRIORITY_MAX
    ensures var w := Run(Boot(), Setup(m, top, priority));
            && |Older(w, w.procs[m].pid)| == m && w.procs[m].priority == priority
            && Waits(w, Turns(n), m, top) && Rounds(w, Turns(n)) == n
  {
    hide Next, Inv, Boot, Setup, Spread;
    SetupSpreads(m, top, priority);
    var w := Run(Boot(), Setup(m, top, priority));
    OlderCount(w, m, top, priority, m);
    TurnsStarve(w, m, top, priority, n);
  }
}
