/** What every run of the process table keeps: family trees without dangling parents, no lost
    wakeup in wait, and each exit status delivered at most once. */
module ProcessSafety {
  import opened Processes

  predicate Live(p: Proc) { p.state != UNUSED }

  /** At most one process runs, and it is the current one; priorities stay in range and a running
      process has no boost. */
  ghost predicate Scheduled(w: World) {
    && -1 <= w.current < NPROC
    && (forall i :: 0 <= i < NPROC ==> (w.procs[i].state == RUNNING <==> i == w.current))
    && (forall i :: 0 <= i < NPROC ==>
          && PRIORITY_MIN <= w.procs[i].priority <= PRIORITY_MAX
          && 0 <= w.procs[i].boost <= PRIORITY_MAX - w.procs[i].priority
          && (w.procs[i].state == RUNNING ==> w.procs[i].boost == 0))
  }

  /** Pids of live processes are distinct and below the counter; the first process is pid 0. */
  ghost predicate Numbered(w: World) {
    && (forall i :: 0 <= i < NPROC && Live(w.procs[i]) ==>
         w.procs[i].pid < w.nextpid && (w.procs[i].pid == 0 <==> i == 0))
    && (forall i, j :: 0 <= i < j < NPROC && Live(w.procs[i]) && Live(w.procs[j]) ==> w.procs[i].pid != w.procs[j].pid)
    && w.nextpid > 0
  }

  /** The first process never exits, every other live process has a live parent that has not
      exited, and a free slot has none. */
  ghost predicate Parented(w: World) {
    && Live(w.procs[0]) && w.procs[0].state != ZOMBIE && w.procs[0].parent == -1
    && forall i :: 0 < i < NPROC ==>
         if Live(w.procs[i]) then
           && 0 <= w.procs[i].parent < NPROC && w.procs[i].parent != i
           && Live(w.procs[w.procs[i].parent]) && w.procs[w.procs[i].parent].state != ZOMBIE
         else w.procs[i].parent == -1
  }

  /** The process in slot i is asleep in wait. */
  predicate InWait(w: World, i: nat)
    requires i < NPROC
  {
    w.procs[i].state == SLEEPING && w.procs[i].chan == Process(i)
  }

  /** No lost wakeup: a process asleep in wait has no exited child. */
  ghost predicate NoLostWakeup(w: World) {
    forall i, j :: 0 <= i < NPROC && 0 <= j < NPROC && InWait(w, i) && w.procs[j].parent == i ==>
      w.procs[j].state != ZOMBIE
  }

  /** A zombie carries the status it exited with, and neither zombies nor living processes have
      been reaped. */
  ghost predicate Accounted(w: World) {
    && (forall i :: 0 <= i < NPROC && w.procs[i].state == ZOMBIE ==>
          w.procs[i].pid in w.exits && w.exits[w.procs[i].pid] == w.procs[i].xstate)
    && (forall i :: 0 <= i < NPROC && Live(w.procs[i]) && w.procs[i].state != ZOMBIE ==> w.procs[i].pid !in w.exits)
    && (forall pid :: pid in w.exits ==> pid < w.nextpid)
    && (forall k :: 0 <= k < |w.reaped| ==> w.reaped[k].0 in w.exits && w.exits[w.reaped[k].0] == w.reaped[k].1)
    && (forall k, i :: 0 <= k < |w.reaped| && 0 <= i < NPROC && Live(w.procs[i]) ==> w.procs[i].pid != w.reaped[k].0)
    && (forall k, l :: 0 <= k < l < |w.reaped| ==> w.reaped[k].0 != w.reaped[l].0)
  }

  ghost predicate Inv(w: World) {
    Scheduled(w) && Numbered(w) && Parented(w) && NoLostWakeup(w) && Accounted(w)
  }

  lemma BootIsSafe()
    ensures Inv(Boot())
  {}

  /** No child of slot i has exited. */
  ghost predicate Childless(w: World, i: int) {
    forall j :: 0 <= j < NPROC && w.procs[j].parent == i ==> w.procs[j].state != ZOMBIE
  }

  /** Changes of states, priorities and boosts that create, end or move nobody. */
  ghost predicate SameFamily(p: Proc, q: Proc) {
    && q.pid == p.pid && q.parent == p.parent && q.xstate == p.xstate
    && (Live(q) <==> Live(p)) && (q.state == ZOMBIE <==> p.state == ZOMBIE)
  }

  /** If nobody was created, ended or moved, and nobody newly sleeps in wait, the family
      invariants hold as before. */
  lemma FamilyKept(w: World, w': World)
    requires Numbered(w) && Parented(w) && NoLostWakeup(w) && Accounted(w)
    requires w'.nextpid == w.nextpid && w'.exits == w.exits && w'.reaped == w.reaped
    requires forall i :: 0 <= i < NPROC ==> SameFamily(w.procs[i], w'.procs[i])
    requires forall i :: 0 <= i < NPROC && InWait(w', i) ==> InWait(w, i) || Childless(w, i)
    ensures Numbered(w') && Parented(w') && NoLostWakeup(w') && Accounted(w')
  {
    assert forall i :: 0 <= i < NPROC ==> SameFamily(w.procs[i], w'.procs[i]);
  }

  lemma DispatchKeeps(w: World)
    requires Inv(w) && w.current == -1
    ensures Inv(Next(w, Dispatch))
  {
    hide Numbered, Parented, NoLostWakeup, Accounted;
    PickIsBest(w.procs);
    hide Pick, Effective;
    var w' := Next(w, Dispatch);
    assert forall i :: 0 <= i < NPROC ==> SameFamily(w.procs[i], w'.procs[i]);
    FamilyKept(w, w');
  }

  /** Family invariants, without the schedule. */
  ghost predicate Family(w: World) {
    Numbered(w) && Parented(w) && NoLostWakeup(w) && Accounted(w)
  }

  /** Leaving the processor: nobody runs any more, everybody else ages within bounds. */
  lemma SwitchOutKeeps(w: World, procs: Table)
    requires Scheduled(w) && 0 <= w.current && Family(w.(procs := procs))
    requires forall i :: 0 <= i < NPROC ==>
               && procs[i].state != RUNNING
               && procs[i].priority == w.procs[i].priority && procs[i].boost == w.procs[i].boost
    ensures Inv(SwitchOut(w, procs))
  {
    hide Scheduled, Numbered, Parented, NoLostWakeup, Accounted;
    var w1 := w.(procs := procs);
    var w' := SwitchOut(w, procs);
    SwitchOutScheduled(w, procs);
    assert forall i :: 0 <= i < NPROC ==> SameFamily(w1.procs[i], w'.procs[i]);
    FamilyKept(w1, w');
  }

  lemma SwitchOutScheduled(w: World, procs: Table)
    requires Scheduled(w) && 0 <= w.current
    requires forall i :: 0 <= i < NPROC ==>
               && procs[i].state != RUNNING
               && procs[i].priority == w.procs[i].priority && procs[i].boost == w.procs[i].boost
    ensures Scheduled(SwitchOut(w, procs))
  {}

  lemma YieldKeeps(w: World)
    requires Inv(w) && 0 <= w.current
    ensures Inv(Next(w, Yield))
  {
    hide Numbered, Parented, NoLostWakeup, Accounted;
    var procs := w.procs[w.current := w.procs[w.current].(state := RUNNABLE)];
    FamilyKept(w, w.(procs := procs));
    SwitchOutKeeps(w, procs);
  }

  lemma SleepKeeps(w: World, id: nat)
    requires Inv(w) && 0 <= w.current
    ensures Inv(Next(w, Sleep(id)))
  {
    hide Numbered, Parented, NoLostWakeup, Accounted;
    var procs := w.procs[w.current := w.procs[w.current].(state := SLEEPING, chan := Address(id))];
    FamilyKept(w, w.(procs := procs));
    SwitchOutKeeps(w, procs);
  }

  lemma WakeAllKeeps(w: World, id: nat)
    requires Inv(w)
    ensures Inv(Next(w, WakeAll(id)))
  {
    hide Scheduled, Numbered, Parented, NoLostWakeup, Accounted;
    InRange(w);
    var w' := w.(procs := Wakeup(w.procs, Address(id), w.current));
    assert Next(w, WakeAll(id)) == w';
    WokenScheduled(w, Address(id), w.current);
    WokenFamily(w, w', id);
    hide Next, Wakeup, SameFamily, InWait, Childless;
    FamilyKept(w, w');
  }

  lemma WokenFamily(w: World, w': World, id: nat)
    requires w' == w.(procs := Wakeup(w.procs, Address(id), w.current))
    ensures forall i :: 0 <= i < NPROC ==> SameFamily(w.procs[i], w'.procs[i])
    ensures forall i :: 0 <= i < NPROC && InWait(w', i) ==> InWait(w, i)
  {}

  lemma WokenScheduled(w: World, chan: Channel, caller: int)
    requires Scheduled(w)
    ensures Scheduled(w.(procs := Wakeup(w.procs, chan, caller)))
  {}

  lemma WakeSlotKeeps(w: World, id: nat, slot: nat)
    requires Inv(w)
    ensures Inv(Next(w, WakeSlot(id, slot)))
  {
    hide Numbered, Parented, NoLostWakeup, Accounted;
    InRange(w);
    var w' := w.(procs := WakeAt(w.procs, Address(id), slot, w.current));
    assert Next(w, WakeSlot(id, slot)) == w' && Scheduled(w');
    SlotFamily(w, w', id, slot);
    hide Next, Scheduled, SameFamily, InWait, Childless;
    FamilyKept(w, w');
  }

  lemma SlotFamily(w: World, w': World, id: nat, slot: nat)
    requires w' == w.(procs := WakeAt(w.procs, Address(id), slot, w.current))
    ensures forall i :: 0 <= i < NPROC ==> SameFamily(w.procs[i], w'.procs[i])
    ensures forall i :: 0 <= i < NPROC && InWait(w', i) ==> InWait(w, i)
  {}

  lemma KillKeeps(w: World, pid: int)
    requires Inv(w) && 0 <= w.current
    ensures Inv(Next(w, Kill(pid)))
  {
    hide Inv, Scheduled, Numbered, Parented, NoLostWakeup, Accounted, FirstPid;
    InRange(w);
    var k := FirstPid(w.procs, pid, 0);
    if k < NPROC {
      KilledKeeps(w, k);
    }
  }

  lemma InRange(w: World)
    requires Inv(w)
    ensures -1 <= w.current < NPROC && (0 <= w.current ==> w.procs[w.current].state == RUNNING)
    ensures 0 < w.current ==> w.procs[w.current].parent != w.current
  {}

  lemma KilledKeeps(w: World, k: nat)
    requires Inv(w) && k < NPROC
    ensures Inv(w.(procs := w.procs[k := w.procs[k].(killed := true,
                                                     state := if w.procs[k].state == SLEEPING then RUNNABLE
                                                       else w.procs[k].state)]))
  {
    hide Numbered, Parented, NoLostWakeup, Accounted;
    var q := w.procs[k].(killed := true, state := if w.procs[k].state == SLEEPING then RUNNABLE else w.procs[k].state);
    var w' := w.(procs := w.procs[k := q]);
    assert forall i :: 0 <= i < NPROC ==> SameFamily(w.procs[i], w'.procs[i]);
    FamilyKept(w, w');
  }

  lemma SetPriorityKeeps(w: World, priority: int)
    requires Inv(w) && 0 <= w.current
    ensures Inv(Next(w, SetPriority(priority)))
  {
    hide Numbered, Parented, NoLostWakeup, Accounted;
    var w' := Next(w, SetPriority(priority));
    assert forall i :: 0 <= i < NPROC ==> SameFamily(w.procs[i], w'.procs[i]);
    FamilyKept(w, w');
  }

  // ---------- exit, wait, fork ----------

  /** What exit does to each slot: children move to the first process, the sleepers that must
      notice are woken, and c becomes a zombie. */
  lemma ExitedAt(procs: Table, c: nat, status: int, i: nat)
    requires c < NPROC && i < NPROC && procs[c].parent != c && c != 0
    ensures var p, q := procs[i], Exited(procs, c, status)[i];
            && q.pid == p.pid && q.priority == p.priority && q.boost == p.boost && q.chan == p.chan
            && q.killed == p.killed
            && q.parent == (if p.parent == c then 0 else p.parent)
            && (if i == c then q.state == ZOMBIE && q.xstate == status
                else q.xstate == p.xstate && (q.state == p.state || (p.state == SLEEPING && q.state == RUNNABLE)))
    ensures procs[c].parent == i && procs[i].chan == Process(i) ==> Exited(procs, c, status)[i].state != SLEEPING
    ensures i == 0 && HasChild(procs, c) && procs[0].chan == Process(0) ==>
      Exited(procs, c, status)[0].state != SLEEPING
  {
    hide HasChild;
  }

  /** The family side of what exit does, slot by slot. */
  ghost predicate AfterExit(w: World, c: nat, status: int, w': World)
    requires c < NPROC
  {
    && w'.nextpid == w.nextpid && w'.reaped == w.reaped && w'.exits == w.exits[w.procs[c].pid := status]
    && forall i :: 0 <= i < NPROC ==>
         && w'.procs[i].pid == w.procs[i].pid && w'.procs[i].chan == w.procs[i].chan
         && w'.procs[i].parent == (if w.procs[i].parent == c then 0 else w.procs[i].parent)
         && (Live(w'.procs[i]) <==> Live(w.procs[i]))
         && (w'.procs[i].state == ZOMBIE <==> w.procs[i].state == ZOMBIE || i == c)
         && w'.procs[i].xstate == (if i == c then status else w.procs[i].xstate)
         && (w'.procs[i].state == SLEEPING ==> w.procs[i].state == SLEEPING)
         && (InWait(w', i) ==> w.procs[c].parent != i && !(i == 0 && HasChild(w.procs, c)))
  }

  lemma ExitIsAfterExit(w: World, status: int)
    requires Inv(w) && 0 < w.current
    ensures AfterExit(w, w.current, status,
                      w.(procs := Exited(w.procs, w.current, status),
                        exits := w.exits[w.procs[w.current].pid := status]))
  {
    hide Inv, Scheduled, Numbered, Parented, NoLostWakeup, Accounted, HasChild, Exited;
    InRange(w);
    var c := w.current;
    var w' := w.(procs := Exited(w.procs, c, status), exits := w.exits[w.procs[c].pid := status]);
    forall i | 0 <= i < NPROC
      ensures w'.procs[i].pid == w.procs[i].pid && w'.procs[i].chan == w.procs[i].chan
      ensures w'.procs[i].parent == (if w.procs[i].parent == c then 0 else w.procs[i].parent)
      ensures Live(w'.procs[i]) <==> Live(w.procs[i])
      ensures w'.procs[i].state == ZOMBIE <==> w.procs[i].state == ZOMBIE || i == c
      ensures w'.procs[i].xstate == (if i == c then status else w.procs[i].xstate)
      ensures w'.procs[i].state == SLEEPING ==> w.procs[i].state == SLEEPING
      ensures InWait(w', i) ==> w.procs[c].parent != i && !(i == 0 && HasChild(w.procs, c))
    {
      ExitedAt(w.procs, c, status, i);
    }
  }

  lemma ExitNumbered(w: World, c: nat, status: int, w': World)
    requires c < NPROC && AfterExit(w, c, status, w') && Numbered(w)
    ensures Numbered(w')
  {}

  lemma ExitParented(w: World, c: nat, status: int, w': World)
    requires 0 < c < NPROC && AfterExit(w, c, status, w') && Parented(w)
    ensures Parented(w')
  {}

  lemma ExitWakes(w: World, c: nat, status: int, w': World)
    requires 0 < c < NPROC && AfterExit(w, c, status, w') && NoLostWakeup(w) && w.procs[c].parent != c
    ensures NoLostWakeup(w')
  {
    hide HasChild;
    forall i, j | 0 <= i < NPROC && 0 <= j < NPROC && InWait(w', i) && w'.procs[j].parent == i
      ensures w'.procs[j].state != ZOMBIE
    {
      assert InWait(w, i) && j != c;
      ChildMeansHasChild(w.procs, c, j);
    }
  }

  lemma ChildMeansHasChild(procs: Table, c: int, j: nat)
    requires j < NPROC
    ensures procs[j].parent == c ==> HasChild(procs, c)
  {}

  lemma ExitAccounted(w: World, c: nat, status: int, w': World)
    requires 0 < c < NPROC && AfterExit(w, c, status, w') && Accounted(w) && Numbered(w)
    requires Live(w.procs[c]) && w.procs[c].state != ZOMBIE
    ensures Accounted(w')
  {
    hide HasChild;
  }

  lemma ExitKeeps(w: World, status: int)
    requires Inv(w) && 0 <= w.current
    ensures Inv(Next(w, Exit(status)))
  {
    hide Numbered, Parented, NoLostWakeup, Accounted, Exited, AfterExit;
    var c := w.current;
    if c != 0 {
      var procs, exits := Exited(w.procs, c, status), w.exits[w.procs[c].pid := status];
      var w' := w.(procs := procs, exits := exits);
      ExitIsAfterExit(w, status);
      ExitNumbered(w, c, status, w');
      ExitParented(w, c, status, w');
      NotOwnParent(w, c);
      ExitWakes(w, c, status, w');
      ExitAccounted(w, c, status, w');
      ExitQuiet(w, status);
      SwitchOutKeeps(w.(exits := exits), procs);
    }
  }

  lemma NotOwnParent(w: World, c: nat)
    requires Parented(w) && 0 < c < NPROC && Live(w.procs[c])
    ensures w.procs[c].parent != c
  {}

  lemma ExitQuiet(w: World, status: int)
    requires Inv(w) && 0 < w.current
    ensures var procs := Exited(w.procs, w.current, status);
            forall i :: 0 <= i < NPROC ==>
              procs[i].state != RUNNING && procs[i].priority == w.procs[i].priority &&
                procs[i].boost == w.procs[i].boost
  {
    assert w.procs[w.current].parent != w.current;
    hide Numbered, Parented, NoLostWakeup, Accounted;
    var procs := Exited(w.procs, w.current, status);
    forall i | 0 <= i < NPROC
      ensures procs[i].state != RUNNING && procs[i].priority == w.procs[i].priority
      ensures procs[i].boost == w.procs[i].boost
    {
      ExitedAt(w.procs, w.current, status, i);
    }
  }

  function Reaped(w: World, z: nat): World
    requires z < NPROC
  {
    w.(procs := w.procs[z := Freed(w.procs[z])], reaped := w.reaped + [(w.procs[z].pid, w.procs[z].xstate)])
  }

  lemma ReapAccounted(w: World, z: nat)
    requires z < NPROC && w.procs[z].state == ZOMBIE && Accounted(w) && Numbered(w)
    ensures Accounted(Reaped(w, z))
  {
    var w' := Reaped(w, z);
    forall i | 0 <= i < NPROC && Live(w'.procs[i])
      ensures i != z && w.procs[i] == w'.procs[i] && w.procs[i].pid != w.procs[z].pid
    {}
    hide Numbered;
  }

  lemma ReapParented(w: World, z: nat)
    requires z < NPROC && w.procs[z].state == ZOMBIE && Parented(w)
    ensures Parented(Reaped(w, z))
  {}

  lemma ReapNumbered(w: World, z: nat)
    requires z < NPROC && w.procs[z].state == ZOMBIE && Numbered(w)
    ensures Numbered(Reaped(w, z))
  {}

  lemma ReapWakes(w: World, z: nat)
    requires z < NPROC && w.procs[z].state == ZOMBIE && NoLostWakeup(w)
    ensures NoLostWakeup(Reaped(w, z))
  {
    var w' := Reaped(w, z);
    forall i, j | 0 <= i < NPROC && 0 <= j < NPROC && InWait(w', i) && w'.procs[j].parent == i
      ensures w'.procs[j].state != ZOMBIE
    {
      assert InWait(w, i);
    }
  }

  lemma ReapKeeps(w: World, z: nat)
    requires Inv(w) && 0 <= w.current && z < NPROC && w.procs[z].state == ZOMBIE
    ensures Inv(Reaped(w, z))
  {
    ReapNumbered(w, z);
    ReapParented(w, z);
    ReapWakes(w, z);
    ReapAccounted(w, z);
    hide Numbered, Parented, NoLostWakeup, Accounted;
  }

  lemma WaitKeeps(w: World)
    requires Inv(w) && 0 <= w.current
    ensures Inv(Next(w, Wait))
  {
    hide Inv, Scheduled, Numbered, Parented, NoLostWakeup, Accounted, FirstZombieChild, SwitchOut;
    InRange(w);
    var c := w.current;
    var z := FirstZombieChild(w.procs, c, 0);
    if z < NPROC {
      ReapKeeps(w, z);
    } else if HasChild(w.procs, c) && !w.procs[c].killed {
      SleepInWaitKeeps(w);
    }
  }

  lemma SleepInWaitKeeps(w: World)
    requires Inv(w) && 0 <= w.current && Childless(w, w.current)
    ensures Inv(SwitchOut(w, w.procs[w.current := w.procs[w.current].(state := SLEEPING, chan := Process(w.current))]))
  {
    hide Numbered, Parented, NoLostWakeup, Accounted;
    var c := w.current;
    var procs := w.procs[c := w.procs[c].(state := SLEEPING, chan := Process(c))];
    FamilyKept(w, w.(procs := procs));
    SwitchOutKeeps(w, procs);
  }

  function Child(w: World, n: nat): World
    requires n < NPROC && 0 <= w.current < NPROC
  {
    w.(procs := w.procs[n := Forked(w.procs[n], w.nextpid, w.current, w.procs[w.current])], nextpid := w.nextpid + 1)
  }

  lemma ForkNumbered(w: World, n: nat)
    requires 0 < n < NPROC && w.procs[n].state == UNUSED && 0 <= w.current < NPROC && Numbered(w)
    ensures Numbered(Child(w, n))
  {}

  lemma ForkParented(w: World, n: nat)
    requires 0 < n < NPROC && w.procs[n].state == UNUSED && Parented(w)
    requires 0 <= w.current < NPROC && w.procs[w.current].state == RUNNING
    ensures Parented(Child(w, n))
  {}

  lemma ForkWakes(w: World, n: nat)
    requires n < NPROC && w.procs[n].state == UNUSED && NoLostWakeup(w) && 0 <= w.current < NPROC
    ensures NoLostWakeup(Child(w, n))
  {
    var w' := Child(w, n);
    forall i, j | 0 <= i < NPROC && 0 <= j < NPROC && InWait(w', i) && w'.procs[j].parent == i
      ensures w'.procs[j].state != ZOMBIE
    {
      assert InWait(w, i);
    }
  }

  lemma ForkAccounted(w: World, n: nat)
    requires n < NPROC && w.procs[n].state == UNUSED && Accounted(w) && 0 <= w.current < NPROC
    ensures Accounted(Child(w, n))
  {}

  lemma FirstLives(w: World)
    requires Parented(w)
    ensures Live(w.procs[0])
  {}

  lemma ForkKeeps(w: World)
    requires Inv(w) && 0 <= w.current
    ensures Inv(Next(w, Fork))
  {
    hide Numbered, Parented, NoLostWakeup, Accounted;
    var n := FirstUnused(w.procs, 0);
    if n < NPROC {
      FirstLives(w);
      ForkNumbered(w, n);
      ForkParented(w, n);
      ForkWakes(w, n);
      ForkAccounted(w, n);
    }
  }

  // ---------- every run ----------

  lemma StepKeeps(w: World, e: Event)
    requires Inv(w)
    ensures Inv(Next(w, e))
  {
    hide Numbered, Parented, NoLostWakeup, Accounted;
    if w.current == -1 {
      if e.Dispatch? {
        DispatchKeeps(w);
      } else if e.WakeAll? {
        WakeAllKeeps(w, e.id);
      } else if e.WakeSlot? {
        WakeSlotKeeps(w, e.id, e.slot);
      }
    } else {
      hide Next;
      match e
      case Dispatch => StutterKeeps(w);
      case Yield => YieldKeeps(w);
      case Sleep(id) => SleepKeeps(w, id);
      case Exit(status) => ExitKeeps(w, status);
      case Wait => WaitKeeps(w);
      case Fork => ForkKeeps(w);
      case WakeAll(id) => WakeAllKeeps(w, id);
      case WakeSlot(id, slot) => WakeSlotKeeps(w, id, slot);
      case Kill(pid) => KillKeeps(w, pid);
      case SetPriority(priority) => SetPriorityKeeps(w, priority);
    }
  }

  lemma StutterKeeps(w: World)
    requires Inv(w) && 0 <= w.current
    ensures Inv(Next(w, Dispatch))
  {}

  /** Safety over whole runs: whatever the processes do and however they are interrupted, every
      live process but the first has a live parent that has not exited, nobody sleeps in wait
      with an exited child, and every status delivered is that of the child's own exit, once. */
  lemma {:induction false} RunsAreSafe(w: World, es: seq<Event>)
    requires Inv(w)
    ensures Inv(Run(w, es))
    decreases |es|
  {
    hide Inv, Next;
    if |es| > 0 {
      StepKeeps(w, es[0]);
      RunsAreSafe(Next(w, es[0]), es[1..]);
    }
  }
}
