/** How long a RUNNABLE process can be passed over. Aging alone does not prevent starvation; it
    does exactly when the older processes are few and of low priority. */
module BoundedWaiting {
  import opened Lists
  import opened Processes
  import opened ProcessSafety

  /** Pids of live processes below q. */
  ghost function Older(w: World, q: nat): set<nat> {
    set i | 0 <= i < NPROC && Live(w.procs[i]) && w.procs[i].pid < q :: w.procs[i].pid
  }

  /** The process in slot p is RUNNABLE and no older process has a static priority above `top`. */
  ghost predicate Waiting(w: World, p: nat, top: int)
    requires p < NPROC
  {
    && w.procs[p].state == RUNNABLE
    && forall i :: 0 <= i < NPROC && Live(w.procs[i]) && w.procs[i].pid < w.procs[p].pid ==> w.procs[i].priority <= top
  }

  /** Throughout the run the process in slot p stays RUNNABLE, and no older process ever has a
      static priority above `top`. */
  ghost predicate Waits(w: World, es: seq<Event>, p: nat, top: int)
    requires p < NPROC
    decreases |es|
  {
    && Waiting(w, p, top)
    && (|es| > 0 ==> Waits(Next(w, es[0]), es[1..], p, top))
  }

  predicate Dispatches(w: World, e: Event) {
    e.Dispatch? && w.current == -1 && Pick(w.procs) != -1
  }

  /** Scheduling decisions made in a run. */
  ghost function Rounds(w: World, es: seq<Event>): nat
    decreases |es|
  {
    if |es| == 0 then 0 else (if Dispatches(w, es[0]) then 1 else 0) + Rounds(Next(w, es[0]), es[1..])
  }

  predicate SwitchesOut(w: World, e: Event) {
    w.current != -1 && Next(w, e).current == -1
  }

  /** How far the effective priority of slot p is from the cap. */
  function Gap(w: World, p: nat): int
    requires p < NPROC
  {
    PRIORITY_MAX - Effective(w.procs[p])
  }

  /** What one step does to the number, priority and boost of a slot: only a switch back to the
      scheduler ages it, by at most one and not the process that just ran. */
  ghost predicate Ages(p: Proc, q: Proc, ran: bool, out: bool) {
    && q.pid == p.pid
    && (q.boost <= p.boost + (if out && !ran then 1 else 0))
    && (q.state == RUNNABLE && p.state == RUNNABLE ==>
          q.priority == p.priority && q.boost == if out then Boosted(p).boost else p.boost)
  }

  lemma IdleStepAges(w: World, e: Event, i: nat)
    requires Inv(w) && i < NPROC && w.current == -1
    ensures Ages(w.procs[i], Next(w, e).procs[i], i == w.current, SwitchesOut(w, e))
    ensures Live(Next(w, e).procs[i]) <==> Live(w.procs[i])
  {
    PickIsBest(w.procs);
    hide Pick, Numbered, Parented, NoLostWakeup, Accounted;
  }

  /** Events after which the same process goes on running. */
  lemma StayAges(w: World, e: Event, i: nat)
    requires Inv(w) && i < NPROC && w.current != -1 && Live(w.procs[i])
    requires e.Dispatch? || e.Fork? || e.WakeAll? || e.WakeSlot? || e.Kill? || e.SetPriority?
    ensures Ages(w.procs[i], Next(w, e).procs[i], i == w.current, SwitchesOut(w, e))
  {
    hide Numbered, Parented, NoLostWakeup, Accounted;
  }

  lemma LeaveAges(w: World, e: Event, i: nat)
    requires Inv(w) && i < NPROC && w.current != -1 && Live(w.procs[i])
    requires e.Yield? || e.Sleep?
    ensures Ages(w.procs[i], Next(w, e).procs[i], i == w.current, SwitchesOut(w, e))
  {
    hide Numbered, Parented, NoLostWakeup, Accounted;
  }

  lemma ExitAges(w: World, status: int, i: nat)
    requires Inv(w) && i < NPROC && w.current != -1 && Live(w.procs[i])
    ensures Ages(w.procs[i], Next(w, Exit(status)).procs[i], i == w.current, SwitchesOut(w, Exit(status)))
  {
    hide Numbered, Parented, NoLostWakeup, Accounted, Exited;
    if w.current != 0 {
      NotOwnParent(w, w.current);
      ExitedAt(w.procs, w.current, status, i);
    }
  }

  lemma WaitAges(w: World, i: nat)
    requires Inv(w) && i < NPROC && w.current != -1 && Live(w.procs[i])
    ensures Ages(w.procs[i], Next(w, Wait).procs[i], i == w.current, SwitchesOut(w, Wait))
  {
    hide Numbered, Parented, NoLostWakeup, Accounted, HasChild;
  }

  lemma StepAges(w: World, e: Event, i: nat)
    requires Inv(w) && i < NPROC && Live(w.procs[i])
    ensures Ages(w.procs[i], Next(w, e).procs[i], i == w.current, SwitchesOut(w, e))
  {
    hide Next, Inv, Ages, SwitchesOut;
    if w.current == -1 {
      IdleStepAges(w, e, i);
    } else {
      match e
      case Exit(status) => ExitAges(w, status, i);
      case Wait => WaitAges(w, i);
      case Yield => LeaveAges(w, e, i);
      case Sleep(_) => LeaveAges(w, e, i);
      case _ => StayAges(w, e, i);
    }
  }

  /** New processes get larger pids: whoever is older than the counter was there before. */
  lemma NobodyOlder(w: World, e: Event, i: nat)
    requires Inv(w) && i < NPROC && Live(Next(w, e).procs[i]) && Next(w, e).procs[i].pid < w.nextpid
    ensures Live(w.procs[i])
  {
    hide Numbered, Parented, NoLostWakeup, Accounted, Exited;
    if w.current == -1 {
      IdleStepAges(w, e, i);
    } else if e.Exit? {
      if w.current != 0 {
        NotOwnParent(w, w.current);
        ExitedAt(w.procs, w.current, e.status, i);
      }
    } else if e.Wait? {
      WaitMakesNobody(w, i);
    }
  }

  lemma WaitMakesNobody(w: World, i: nat)
    requires Inv(w) && 0 <= w.current && i < NPROC && Live(Next(w, Wait).procs[i])
    ensures Live(w.procs[i])
  {
    hide Numbered, Parented, NoLostWakeup, Accounted, HasChild;
  }

  lemma OlderShrinks(w: World, e: Event, q: nat)
    requires Inv(w) && q < w.nextpid
    ensures Older(Next(w, e), q) <= Older(w, q)
  {
    hide Inv, Next, Live;
    var w' := Next(w, e);
    forall i | 0 <= i < NPROC && Live(w'.procs[i]) && w'.procs[i].pid < q
      ensures Live(w.procs[i]) && w.procs[i].pid == w'.procs[i].pid
    {
      NobodyOlder(w, e, i);
      StepAges(w, e, i);
    }
  }

  lemma CurrentMoves(w: World, e: Event)
    requires Inv(w)
    ensures Next(w, e).current == if Dispatches(w, e) then Pick(w.procs) else if SwitchesOut(w, e) then -1
        else w.current
    ensures Next(w, e).nextpid >= w.nextpid
  {
    PickIsBest(w.procs);
    hide Pick, Numbered, Parented, NoLostWakeup, Accounted, Exited, HasChild;
  }

  /** Of two processes, one at the cap: the scheduler can only prefer an older one at the cap. */
  lemma PassedOverBy(w: World, p: nat)
    requires Inv(w) && w.current == -1 && p < NPROC && w.procs[p].state == RUNNABLE && Gap(w, p) == 0
    ensures var c := Pick(w.procs);
            && 0 <= c < NPROC && w.procs[c].state == RUNNABLE
            && (c != p ==> w.procs[c].pid < w.procs[p].pid && w.procs[c].priority + w.procs[c].boost == PRIORITY_MAX)
  {
    PickIsBest(w.procs);
    hide Pick, Parented, NoLostWakeup, Accounted;
  }

  /** The processes chosen since p reached the cap have aged at most that many rounds. */
  ghost predicate Young(w: World, chosen: set<nat>, k: int) {
    forall i :: 0 <= i < NPROC && Live(w.procs[i]) && w.procs[i].pid in chosen ==> w.procs[i].boost <= k
  }

  /** The state of affairs once p is at the cap: `chosen` are the pids dispatched since, all of
      them in `elders`, and none of them can be back at the cap yet. */
  ghost predicate Window(w: World, p: nat, elders: set<nat>, chosen: set<nat>)
    requires p < NPROC
  {
    && w.procs[p].state == RUNNABLE && w.procs[p].pid < w.nextpid && Gap(w, p) == 0
    && Older(w, w.procs[p].pid) <= elders && chosen <= elders && (forall x :: x in chosen ==> x < w.nextpid)
    && if w.current == -1 then Young(w, chosen, |chosen| - 1)
       else && 0 <= w.current < NPROC && w.procs[w.current].pid in chosen
            && Young(w, chosen, if |chosen| == 1 then 0 else |chosen| - 2)
  }

  lemma WindowDispatch(w: World, p: nat, top: int, m: nat, elders: set<nat>, chosen: set<nat>)
    requires Inv(w) && p < NPROC && Window(w, p, elders, chosen) && |elders| <= m && m + top <= PRIORITY_MAX
    requires forall i :: 0 <= i < NPROC && Live(w.procs[i]) && w.procs[i].pid < w.procs[p].pid ==>
      w.procs[i].priority <= top
    requires w.current == -1 && Next(w, Dispatch).procs[p].state == RUNNABLE
    ensures Dispatches(w, Dispatch)
    ensures var c := Pick(w.procs); 0 <= c < NPROC && w.procs[c].pid in elders && w.procs[c].pid !in chosen
    ensures Window(Next(w, Dispatch), p, elders, chosen + {w.procs[Pick(w.procs)].pid})
  {
    hide Inv, Pick, Window, Next;
    NotYetChosen(w, p, top, m, elders, chosen);
    DispatchOpens(w, p, elders, chosen);
  }

  /** At the cap p can only be passed over by an older process that was not chosen yet. */
  lemma NotYetChosen(w: World, p: nat, top: int, m: nat, elders: set<nat>, chosen: set<nat>)
    requires Inv(w) && p < NPROC && Window(w, p, elders, chosen) && |elders| <= m && m + top <= PRIORITY_MAX
    requires forall i :: 0 <= i < NPROC && Live(w.procs[i]) && w.procs[i].pid < w.procs[p].pid ==>
      w.procs[i].priority <= top
    requires w.current == -1 && Next(w, Dispatch).procs[p].state == RUNNABLE
    ensures Dispatches(w, Dispatch)
    ensures var c := Pick(w.procs);
            && 0 <= c < NPROC && c != p && w.procs[c].state == RUNNABLE
            && w.procs[c].pid in elders && w.procs[c].pid !in chosen
  {
    hide Numbered, Parented, NoLostWakeup, Accounted, Pick;
    PassedOverBy(w, p);
    var c := Pick(w.procs);
    assert c != p;
    assert w.procs[c].pid in Older(w, w.procs[p].pid);
    SubsetSize(chosen, elders);
  }

  lemma DispatchOpens(w: World, p: nat, elders: set<nat>, chosen: set<nat>)
    requires Inv(w) && p < NPROC && Window(w, p, elders, chosen) && w.current == -1
    requires var c := Pick(w.procs);
            && 0 <= c < NPROC && c != p && w.procs[c].state == RUNNABLE
            && w.procs[c].pid in elders && w.procs[c].pid !in chosen
    ensures Window(Next(w, Dispatch), p, elders, chosen + {w.procs[Pick(w.procs)].pid})
  {
    hide Parented, NoLostWakeup, Accounted, Pick, Older, Scheduled;
    OlderShrinks(w, Dispatch, w.procs[p].pid);
    var c := Pick(w.procs);
    var pid, w' := w.procs[c].pid, Next(w, Dispatch);
    assert |chosen + {pid}| == |chosen| + 1;
    assert Live(w.procs[c]);
    DispatchYoung(w, chosen, c);
  }

  lemma DispatchYoung(w: World, chosen: set<nat>, c: nat)
    requires Numbered(w) && w.current == -1 && c == Pick(w.procs) && c < NPROC && Live(w.procs[c])
    requires Young(w, chosen, |chosen| - 1) && w.procs[c].pid !in chosen
    ensures var now := chosen + {w.procs[c].pid};
            Young(Next(w, Dispatch), now, if |now| == 1 then 0 else |now| - 2)
  {
    hide Pick;
    var pid := w.procs[c].pid;
    assert |chosen + {pid}| == |chosen| + 1;
  }

  lemma WindowOther(w: World, e: Event, p: nat, elders: set<nat>, chosen: set<nat>)
    requires Inv(w) && p < NPROC && Window(w, p, elders, chosen)
    requires !Dispatches(w, e) && Next(w, e).procs[p].state == RUNNABLE
    ensures Window(Next(w, e), p, elders, chosen)
  {
    var w' := Next(w, e);
    var q := w.procs[p].pid;
    OlderShrinks(w, e, q);
    CurrentMoves(w, e);
    StepAges(w, e, p);
    assert Gap(w', p) == 0 && w'.procs[p].pid == q by {
      hide Next;
    }
    hide Next, Older, Gap, Parented, NoLostWakeup, Accounted, Dispatches;
    if SwitchesOut(w, e) {
      forall i | 0 <= i < NPROC && Live(w'.procs[i]) && w'.procs[i].pid in chosen
        ensures w'.procs[i].boost <= |chosen| - 1
      {
        ChosenStep(w, e, i, elders, chosen, p);
        if |chosen| == 1 {
          OnlyOne(chosen, w.procs[w.current].pid, w.procs[i].pid);
        } else {
          assert |chosen| != 0;
        }
      }
    } else {
      forall i | 0 <= i < NPROC && Live(w'.procs[i]) && w'.procs[i].pid in chosen
        ensures Live(w.procs[i]) && w.procs[i].pid in chosen && w'.procs[i].boost <= w.procs[i].boost
      {
        ChosenStep(w, e, i, elders, chosen, p);
      }
      if w.current != -1 {
        StepAges(w, e, w.current);
      }
    }
  }

  lemma ChosenStep(w: World, e: Event, i: nat, elders: set<nat>, chosen: set<nat>, p: nat)
    requires Inv(w) && i < NPROC && p < NPROC && Window(w, p, elders, chosen)
    requires Live(Next(w, e).procs[i]) && Next(w, e).procs[i].pid in chosen
    requires forall x :: x in chosen ==> x < w.nextpid
    ensures Live(w.procs[i]) && Ages(w.procs[i], Next(w, e).procs[i], i == w.current, SwitchesOut(w, e))
  {
    hide Next, Inv;
    NobodyOlder(w, e, i);
    StepAges(w, e, i);
  }

  lemma OnlyOne(s: set<nat>, a: nat, b: nat)
    requires |s| == 1 && a in s && b in s
    ensures a == b
  {
    assert |s - {a}| == 0;
  }

  lemma {:induction false} WindowBound(w: World, es: seq<Event>, p: nat, top: int, m: nat, elders: set<nat>,
                                       chosen: set<nat>)
    requires Inv(w) && p < NPROC && Waits(w, es, p, top) && Window(w, p, elders, chosen)
    requires |elders| <= m && m + top <= PRIORITY_MAX
    ensures Rounds(w, es) + |chosen| <= m
    decreases |es|
  {
    hide Inv, Next, Window, Pick;
    WindowSize(w, p, elders, chosen);
    if |es| > 0 {
      var w' := Next(w, es[0]);
      StepKeeps(w, es[0]);
      if Dispatches(w, es[0]) {
        WindowDispatch(w, p, top, m, elders, chosen);
        WindowBound(w', es[1..], p, top, m, elders, chosen + {w.procs[Pick(w.procs)].pid});
      } else {
        WindowOther(w, es[0], p, elders, chosen);
        WindowBound(w', es[1..], p, top, m, elders, chosen);
      }
    }
  }

  lemma WindowSize(w: World, p: nat, elders: set<nat>, chosen: set<nat>)
    requires p < NPROC && Window(w, p, elders, chosen)
    ensures |chosen| <= |elders|
  {
    SubsetSize(chosen, elders);
  }

  /** While p waits, each return to the scheduler brings it one closer to the cap. */
  lemma GapStep(w: World, e: Event, p: nat)
    requires Inv(w) && p < NPROC && w.procs[p].state == RUNNABLE && Next(w, e).procs[p].state == RUNNABLE
    ensures Next(w, e).procs[p].pid == w.procs[p].pid
    ensures Gap(Next(w, e), p) == if SwitchesOut(w, e) && Gap(w, p) > 0 then Gap(w, p) - 1 else Gap(w, p)
    ensures 0 <= Gap(w, p) <= PRIORITY_MAX - w.procs[p].priority
  {
    StepAges(w, e, p);
    hide Next, Numbered, Parented, NoLostWakeup, Accounted;
  }

  lemma {:induction false} WaitBound(w: World, es: seq<Event>, p: nat, top: int, m: nat)
    requires Inv(w) && p < NPROC && Waits(w, es, p, top)
    requires |Older(w, w.procs[p].pid)| <= m && m + top <= PRIORITY_MAX
    ensures Gap(w, p) >= 0
    ensures Rounds(w, es) <= m + if w.current == -1 || Gap(w, p) == 0 then Gap(w, p) else Gap(w, p) - 1
    decreases |es|
  {
    assert Gap(w, p) >= 0;
    if w.current == -1 && Gap(w, p) == 0 {
      WindowOpens(w, p);
      WindowBound(w, es, p, top, m, Older(w, w.procs[p].pid), {});
    } else if |es| > 0 {
      var w' := Next(w, es[0]);
      StepKeeps(w, es[0]);
      GapStep(w, es[0], p);
      CurrentMoves(w, es[0]);
      NumberedPid(w, p);
      OlderShrinks(w, es[0], w.procs[p].pid);
      SubsetSize(Older(w', w.procs[p].pid), Older(w, w.procs[p].pid));
      hide Inv, Next, Older, Pick, Gap;
      WaitBound(w', es[1..], p, top, m);
    }
  }

  lemma NumberedPid(w: World, p: nat)
    requires Inv(w) && p < NPROC && Live(w.procs[p])
    ensures w.procs[p].pid < w.nextpid
  {}

  lemma WindowOpens(w: World, p: nat)
    requires Inv(w) && p < NPROC && w.procs[p].state == RUNNABLE && w.current == -1 && Gap(w, p) == 0
    ensures Window(w, p, Older(w, w.procs[p].pid), {})
  {}

  /** Bounded waiting: if at most m older processes are alive, none of them ever has a static
      priority above `top`, and m + top <= 15, then a process that stays RUNNABLE is passed over
      by at most 15 - priority + m scheduling decisions, in any run whatever. */
  lemma BoundedWait(w: World, es: seq<Event>, p: nat, top: int, m: nat)
    requires Inv(w) && p < NPROC && Waits(w, es, p, top)
    requires |Older(w, w.procs[p].pid)| <= m && m + top <= PRIORITY_MAX
    ensures Rounds(w, es) <= PRIORITY_MAX - w.procs[p].priority + m
  {
    WaitBound(w, es, p, top, m);
    assert 0 <= w.procs[p].boost;
  }
}
