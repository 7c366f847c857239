/** proc.c as it is written: scanning loops that change the table in place. Every method is the
    step of the same name of module Processes, so every run of the kernel is a run of the model
    and keeps its invariant. */
module ProcTable {
  import opened Processes
  import opened ProcessSafety

  /** As boost_waiting_processes leaves whoever it finds: one boost more if RUNNABLE and below the cap. */
  predicate Older(p: Proc, q: Proc) {
    && q == p.(boost := q.boost)
    && q.boost == p.boost + if p.state == RUNNABLE && p.priority + p.boost < 15 then 1 else 0
  }

  /** Everybody but c aged. */
  ghost predicate OthersAge(procs: Table, procs': Table, c: int) {
    forall k :: 0 <= k < NPROC && k != c ==> Older(procs[k], procs'[k])
  }

  class Kernel {
    var procs: Table
    var nextpid: nat
    var current: int
    ghost var exits: map<nat, int>
    ghost var reaped: seq<(nat, int)>

    ghost function Now(): World
      reads this
    {
      World(procs, nextpid, current, exits, reaped)
    }

    /** The table after boot. */
    constructor ()
      ensures Now() == Boot() && Inv(Now())
    {
      procs, nextpid, current := Boot().procs, 2, -1;
      exits, reaped := map[], [];
      new;
      BootIsSafe();
    }

    /** The scan of proc_scheduler. */
    method Choose() returns (chosen: int)
      ensures chosen == Pick(procs)
      ensures if chosen == -1 then forall k :: 0 <= k < NPROC ==>
          procs[k].state != RUNNABLE else IsBest(procs, NPROC, chosen)
    {
      chosen := -1;
      var best := PRIORITY_MIN - 1;
      for i := 0 to NPROC
        invariant -1 <= chosen < NPROC && (chosen >= 0 ==> best == Effective(procs[chosen]))
        invariant PickFrom(procs, i, chosen) == Pick(procs)
      {
        if procs[i].state == RUNNABLE {
          var eff := Effective(procs[i]);
          if chosen == -1 || eff > best || (eff == best && procs[i].pid < procs[chosen].pid) {
            chosen, best := i, eff;
          }
        }
      }
      PickIsBest(procs);
    }

    /** proc_scheduler up to the switch to the chosen process. */
    method Dispatch() returns (chosen: int)
      requires Inv(Now()) && current == -1
      modifies this
      ensures Now() == Next(old(Now()), Event.Dispatch) && Inv(Now())
      ensures chosen == current
      ensures if chosen == -1 then procs == old(procs) && forall k :: 0 <= k < NPROC ==> procs[k].state != RUNNABLE
              else && IsBest(old(procs), NPROC, chosen)
                   && procs == old(procs)[chosen := old(procs)[chosen].(state := RUNNING, boost := 0, chan := Nothing)]
    {
      hide Inv, Scheduled, Numbered, Parented, NoLostWakeup, Accounted;
      StepKeeps(Now(), Event.Dispatch);
      OnProcessor(Now());
      chosen := Choose();
      if chosen >= 0 {
        procs := procs[chosen := procs[chosen].(state := RUNNING, boost := 0, chan := Nothing)];
        current := chosen;
      }
    }

    /** boost_waiting_processes. */
    method BoostWaiting(last: int)
      modifies this`procs
      ensures procs == Boost(old(procs), last)
      ensures OthersAge(old(procs), procs, last) && (0 <= last < NPROC ==> procs[last] == old(procs)[last])
    {
      for i := 0 to NPROC
        invariant forall k :: 0 <= k < NPROC ==>
          procs[k] == if k < i && k != last then Boosted(old(procs)[k]) else old(procs)[k]
      {
        if i != last && procs[i].state == RUNNABLE && procs[i].boost < PRIORITY_MAX - procs[i].priority {
          procs := procs[i := procs[i].(boost := procs[i].boost + 1)];
        }
      }
    }

    /** proc_sched and the scheduler after the switch back. */
    method Sched()
      requires 0 <= current < NPROC && procs[current].state != RUNNING
      modifies this`procs, this`current
      ensures Now() == SwitchOut(old(Now()), old(procs))
      ensures current == -1 && OthersAge(old(procs), procs, old(current)) && procs[old(current)] == old(procs[current])
    {
      var last := current;
      current := -1;
      BoostWaiting(last);
    }

    method Yield()
      requires Inv(Now()) && 0 <= current
      modifies this
      ensures Now() == Next(old(Now()), Event.Yield) && Inv(Now())
      ensures current == -1 && procs[old(current)] == old(procs[current]).(state := RUNNABLE)
      ensures OthersAge(old(procs), procs, old(current))
    {
      hide Inv, Scheduled, Numbered, Parented, NoLostWakeup, Accounted;
      StepKeeps(Now(), Event.Yield);
      OnProcessor(Now());
      procs := procs[current := procs[current].(state := RUNNABLE)];
      Sched();
    }

    /** proc_sleep on an address, up to the switch. */
    method Sleep(id: nat)
      requires Inv(Now()) && 0 <= current
      modifies this
      ensures Now() == Next(old(Now()), Event.Sleep(id)) && Inv(Now())
      ensures current == -1 && procs[old(current)] == old(procs[current]).(state := SLEEPING, chan := Address(id))
      ensures OthersAge(old(procs), procs, old(current))
    {
      hide Inv, Scheduled, Numbered, Parented, NoLostWakeup, Accounted;
      StepKeeps(Now(), Event.Sleep(id));
      OnProcessor(Now());
      procs := procs[current := procs[current].(chan := Address(id), state := SLEEPING)];
      Sched();
    }

    /** proc_wakeup on a channel, by a process or by an interrupt with nobody running. */
    method WakeAll(id: nat)
      requires Inv(Now())
      modifies this
      ensures Now() == Next(old(Now()), Event.WakeAll(id)) && Inv(Now())
      ensures forall k :: 0 <= k < NPROC ==>
                procs[k] == if k != current && old(procs)[k].state == SLEEPING && old(procs)[k].chan == Address(id)
                            then old(procs)[k].(state := RUNNABLE) else old(procs)[k]
      ensures unchanged(this`nextpid, this`current, this`exits, this`reaped)
    {
      hide Inv, Scheduled, Numbered, Parented, NoLostWakeup, Accounted;
      StepKeeps(Now(), Event.WakeAll(id));
      OnProcessor(Now());
      for i := 0 to NPROC
        invariant unchanged(this`nextpid, this`current, this`exits, this`reaped)
        invariant forall k :: 0 <= k < NPROC ==>
          procs[k] == if k < i && k != current then Woken(old(procs)[k], Address(id)) else old(procs)[k]
      {
        if i != current && procs[i].state == SLEEPING && procs[i].chan == Address(id) {
          procs := procs[i := procs[i].(state := RUNNABLE)];
        }
      }
      assert procs == Wakeup(old(procs), Address(id), current);
    }

    /** proc_wakeup_one. */
    method WakeupOne(i: int)
      requires 0 <= i < NPROC
      modifies this`procs
      ensures procs == WakeOne(old(procs), i)
      ensures procs == old(procs)[i := procs[i]]
      ensures procs[i] == if old(procs)[i].state == SLEEPING && old(procs)[i].chan == Process(i)
                          then old(procs)[i].(state := RUNNABLE) else old(procs)[i]
    {
      if procs[i].state == SLEEPING && procs[i].chan == Process(i) {
        procs := procs[i := procs[i].(state := RUNNABLE)];
      }
    }

    /** proc_reparent. */
    method Reparent(parent: int)
      modifies this`procs
      ensures procs == Adopted(old(procs), parent)
      ensures forall k :: 0 <= k < NPROC ==>
        && procs[k] == old(procs)[k].(parent := procs[k].parent, state := procs[k].state)
        && procs[k].parent == (if old(procs)[k].parent == parent then 0 else old(procs)[k].parent)
        && procs[k].state == if k == 0 && old(procs)[0].state == SLEEPING && old(procs)[0].chan == Process(0)
                                && (exists i :: 0 <= i < NPROC && old(procs)[i].parent == parent)
                             then RUNNABLE else old(procs)[k].state
    {
      ghost var found := false;
      for i := 0 to NPROC
        invariant found <==> exists k :: 0 <= k < i && old(procs)[k].parent == parent
        invariant forall k :: 0 <= k < NPROC ==>
          procs[k] == AdoptedUpTo(old(procs), parent, i, found, k)
      {
        if procs[i].parent == parent {
          procs := procs[i := procs[i].(parent := 0)];
          WakeupOne(0);
          found := true;
        }
      }
      assert found <==> HasChild(old(procs), parent);
      assert forall k :: 0 <= k < NPROC ==> procs[k] == Adopted(old(procs), parent)[k];
    }

    /** proc_exit, for any process but the first. */
    method Exit(status: int)
      requires Inv(Now()) && 0 < current
      modifies this
      ensures Now() == Next(old(Now()), Event.Exit(status)) && Inv(Now())
      ensures current == -1 && procs[old(current)] == old(procs[current]).(state := ZOMBIE, xstate := status)
      ensures forall k :: 0 <= k < NPROC && k != old(current) ==>
        LeftBehind(old(procs), old(current), k, procs[k])
      ensures exits == old(exits)[old(procs[current].pid) := status] && reaped == old(reaped)
    {
      hide Inv, Scheduled, Numbered, Parented, NoLostWakeup, Accounted, Exited, Boost, Behind;
      StepKeeps(Now(), Event.Exit(status));
      OnProcessor(Now());
      HasParent(Now(), current);
      Part(current, status);
      exits := exits[procs[current].pid := status];
      Sched();
    }

    /** proc_exit up to the switch, in the table. */
    method Part(c: nat, status: int)
      requires 0 < c < NPROC && 0 <= procs[c].parent < NPROC && procs[c].parent != c
      modifies this`procs
      ensures procs == Exited(old(procs), c, status)
      ensures procs[c] == old(procs)[c].(state := ZOMBIE, xstate := status)
      ensures forall k :: 0 <= k < NPROC && k != c ==> procs[k] == Behind(old(procs), c, k)
    {
      Reparent(c);
      assert procs[c].parent == old(procs)[c].parent;
      WakeupOne(procs[c].parent);
      procs := procs[c := procs[c].(xstate := status, state := ZOMBIE)];
    }

    /** The scan of proc_wait: the first zombie child, and, if there is none, whether there are
        children at all. */
    method ScanChildren(c: int) returns (z: nat, havekids: bool)
      ensures z == FirstZombieChild(procs, c, 0)
      ensures z == NPROC ==> (havekids <==> HasChild(procs, c))
    {
      z, havekids := 0, false;
      while z < NPROC
        invariant z <= NPROC && FirstZombieChild(procs, c, z) == FirstZombieChild(procs, c, 0)
        invariant havekids <==> exists k :: 0 <= k < z && procs[k].parent == c
      {
        if procs[z].parent == c {
          havekids := true;
          if procs[z].state == ZOMBIE { return; }
        }
        z := z + 1;
      }
    }

    /** The scan of proc_alloc. */
    method FindUnused() returns (n: nat)
      ensures n == FirstUnused(procs, 0)
    {
      n := 0;
      while n < NPROC
        invariant n <= NPROC && FirstUnused(procs, n) == FirstUnused(procs, 0)
      {
        if procs[n].state == UNUSED { return; }
        n := n + 1;
      }
    }

    /** The scan of proc_kill. */
    method FindPid(pid: int) returns (k: nat)
      ensures k == FirstPid(procs, pid, 0)
    {
      k := 0;
      while k < NPROC
        invariant k <= NPROC && FirstPid(procs, pid, k) == FirstPid(procs, pid, 0)
      {
        if procs[k].pid == pid { return; }
        k := k + 1;
      }
    }

    /** One pass of proc_wait: reap a zombie child, give up, or go to sleep. */
    method Wait() returns (pid: int, status: int, asleep: bool)
      requires Inv(Now()) && 0 <= current
      modifies this
      ensures Now() == Next(old(Now()), Event.Wait) && Inv(Now())
      ensures asleep <==> current == -1
      ensures pid >= 0 ==> exists z :: 0 <= z < NPROC && Reaps(old(procs), old(current), z, procs, pid, status)
      ensures pid < 0 && !asleep ==> procs == old(procs)
      ensures asleep ==>
        && procs[old(current)] == old(procs[current]).(state := SLEEPING, chan := Process(old(current)))
        && OthersAge(old(procs), procs, old(current)) && HasChild(old(procs), old(current))
        && !old(procs[current]).killed
        && forall z :: 0 <= z < NPROC && old(procs)[z].parent == old(current) ==> old(procs)[z].state != ZOMBIE
      ensures pid >= 0 ==> pid in exits && exits[pid] == status && reaped == old(reaped) + [(pid, status)]
      ensures pid >= 0 ==> forall k :: 0 <= k < |old(reaped)| ==> old(reaped)[k].0 != pid
      ensures pid < 0 && !asleep ==> !HasChild(procs, current) || procs[current].killed
    {
      hide Inv, Scheduled, Numbered, Parented, NoLostWakeup, Accounted, Reaps, Boost;
      StepKeeps(Now(), Event.Wait);
      OnProcessor(Now());
      var c := current;
      var z, havekids := ScanChildren(c);
      if z < NPROC {
        ReapedOnce(Now(), z);
        ReapsOne(procs, c, z);
        pid, status, asleep := procs[z].pid, procs[z].xstate, false;
        procs := procs[z := Freed(procs[z])];
        reaped := reaped + [(pid, status)];
        return;
      }
      pid, status, asleep := -1, 0, havekids && !procs[c].killed;
      if asleep {
        procs := procs[c := procs[c].(chan := Process(c), state := SLEEPING)];
        Sched();
      }
    }

    /** proc_fork with proc_alloc: the first free slot, the next pid, the parent's priorities. */
    method Fork() returns (pid: int)
      requires Inv(Now()) && 0 <= current
      modifies this
      ensures Now() == Next(old(Now()), Event.Fork) && Inv(Now())
      ensures pid == -1 <==> forall k :: 0 <= k < NPROC ==> old(procs)[k].state != UNUSED
      ensures pid == -1 ==> procs == old(procs) && nextpid == old(nextpid)
      ensures pid != -1 ==>
        pid == old(nextpid) && nextpid == pid + 1
        && exists n :: 0 <= n < NPROC && Spawned(old(procs), current, n, procs, pid)
      ensures pid >= 0 ==> forall k :: 0 <= k < NPROC && Live(old(procs)[k]) ==> old(procs)[k].pid < pid
    {
      hide Inv, Scheduled, Numbered, Parented, NoLostWakeup, Accounted, Spawned;
      StepKeeps(Now(), Event.Fork);
      OnProcessor(Now());
      var n := FindUnused();
      if n == NPROC { return -1; }
      PidsBelow(Now());
      pid := nextpid;
      nextpid := nextpid + 1;
      Fill(n, pid);
    }

    /** The slot of a new process, as proc_alloc and then proc_fork set it. */
    method Fill(n: nat, pid: nat)
      requires n == FirstUnused(procs, 0) < NPROC && 0 <= current < NPROC && procs[current].state != UNUSED
      modifies this`procs
      ensures procs == old(procs)[n := Forked(old(procs)[n], pid, current, old(procs)[current])]
      ensures Spawned(old(procs), current, n, procs, pid)
    {
      procs := procs[n := procs[n].(pid := pid, priority := PRIORITY_DEFAULT, boost := 0, state := RUNNABLE)];
      procs := procs[n := procs[n].(parent := current, priority := procs[current].priority,
        boost := procs[current].boost)];
    }

    method Kill(pid: int) returns (r: int)
      requires Inv(Now()) && 0 <= current
      modifies this
      ensures Now() == Next(old(Now()), Event.Kill(pid)) && Inv(Now())
      ensures r == if exists k :: 0 <= k < NPROC && old(procs)[k].pid == pid then 0 else -1
      ensures r == -1 ==> procs == old(procs)
      ensures r == 0 ==> exists k :: 0 <= k < NPROC && Killed(old(procs), k, procs, pid)
    {
      hide Inv, Scheduled, Numbered, Parented, NoLostWakeup, Accounted, Killed;
      StepKeeps(Now(), Event.Kill(pid));
      OnProcessor(Now());
      var k := FindPid(pid);
      if k == NPROC { return -1; }
      procs := procs[k := procs[k].(killed := true)];
      if procs[k].state == SLEEPING {
        procs := procs[k := procs[k].(state := RUNNABLE)];
      }
      KillsOne(old(procs), pid);
      return 0;
    }

    method SetPriority(priority: int) returns (r: int)
      requires Inv(Now())
      modifies this
      ensures Now() == Next(old(Now()), Event.SetPriority(priority)) && Inv(Now())
      ensures r == if 0 <= priority <= 15 && current >= 0 then 0 else -1
      ensures current == old(current) && (r == -1 ==> procs == old(procs))
      ensures r == 0 ==> procs == old(procs)[current := old(procs[current]).(priority := priority, boost := 0)]
    {
      hide Inv, Scheduled, Numbered, Parented, NoLostWakeup, Accounted;
      StepKeeps(Now(), Event.SetPriority(priority));
      OnProcessor(Now());
      if priority < PRIORITY_MIN || priority > PRIORITY_MAX || current == -1 { return -1; }
      procs := procs[current := procs[current].(priority := priority, boost := 0)];
      return 0;
    }
  }

  // ---------- what the operations do to the table, slot by slot ----------

  /** Somebody else's slot after c's exit: a child of c has the first process for its parent, c's parent and,
      if c had children, the first process are awake if they waited; and everybody ages. */
  ghost predicate LeftBehind(procs: Table, c: int, k: nat, q: Proc)
    requires k < NPROC && 0 <= c < NPROC
  {
    Older(Behind(procs, c, k), q)
  }

  ghost function Behind(procs: Table, c: int, k: nat): Proc
    requires k < NPROC && 0 <= c < NPROC
  {
    var p := procs[k];
    var called := k == procs[c].parent || (k == 0 && exists i :: 0 <= i < NPROC && procs[i].parent == c);
    p.(parent := if p.parent == c then 0 else p.parent,
       state := if called && p.state == SLEEPING && p.chan == Process(k) then RUNNABLE else p.state)
  }

  lemma HasParent(w: World, c: int)
    requires Inv(w) && 0 < c < NPROC && w.procs[c].state == RUNNING
    ensures 0 <= w.procs[c].parent < NPROC && w.procs[c].parent != c
  {
    hide Scheduled, Numbered, NoLostWakeup, Accounted;
  }

  /** wait of c frees slot z: the first of its children that has exited; pid and status are the child's. */
  ghost predicate Reaps(procs: Table, c: int, z: nat, procs': Table, pid: int, status: int)
    requires z < NPROC
  {
    && procs[z].parent == c && procs[z].state == ZOMBIE && pid == procs[z].pid && status == procs[z].xstate
    && (forall i :: 0 <= i < z ==> !(procs[i].parent == c && procs[i].state == ZOMBIE))
    && procs' == procs[z := procs'[z]] && procs'[z].state == UNUSED && procs'[z].parent == -1
    && procs'[z].pid == pid && !procs'[z].killed && procs'[z].chan == Nothing && procs'[z].xstate == 0
    && procs'[z].priority == 8 && procs'[z].boost == 0
  }

  /** fork of c fills slot n, the first free one, with the parent's priority and boost. */
  ghost predicate Spawned(procs: Table, c: int, n: nat, procs': Table, pid: int)
    requires n < NPROC && 0 <= c < NPROC
  {
    && procs[n].state == UNUSED && (forall i :: 0 <= i < n ==> procs[i].state != UNUSED)
    && procs' == procs[n := procs'[n]] && procs'[n].state == RUNNABLE && procs'[n].pid == pid && procs'[n].parent == c
    && procs'[n].priority == procs[c].priority && procs'[n].boost == procs[c].boost
    && procs'[n].killed == procs[n].killed && procs'[n].chan == procs[n].chan && procs'[n].xstate == procs[n].xstate
  }

  /** kill marks slot k, the first with the pid, and wakes it if it sleeps. */
  ghost predicate Killed(procs: Table, k: nat, procs': Table, pid: int)
    requires k < NPROC
  {
    && procs[k].pid == pid && (forall i :: 0 <= i < k ==> procs[i].pid != pid)
    && procs' == procs[k := procs'[k]] && procs'[k].killed && procs'[k].state != SLEEPING
    && procs'[k] == procs[k].(killed := true, state := procs'[k].state)
    && (procs[k].state != SLEEPING ==> procs'[k].state == procs[k].state)
    && (procs[k].state == SLEEPING ==> procs'[k].state == RUNNABLE)
  }

  lemma ReapsOne(procs: Table, c: int, z: nat)
    requires z == FirstZombieChild(procs, c, 0) < NPROC
    ensures Reaps(procs, c, z, procs[z := Freed(procs[z])], procs[z].pid, procs[z].xstate)
  {}

  lemma KillsOne(procs: Table, pid: int)
    requires FirstPid(procs, pid, 0) < NPROC
    ensures var k := FirstPid(procs, pid, 0);
            Killed(procs, k, procs[k := procs[k].(killed := true, state := if procs[k].state == SLEEPING then RUNNABLE
                   else procs[k].state)], pid)
  {}

  lemma OnProcessor(w: World)
    requires Inv(w)
    ensures -1 <= w.current < NPROC
    ensures 0 <= w.current ==> w.procs[w.current].state == RUNNING
  {}

  /** A process that is reaped had exited with the status it carries and was not reaped before. */
  lemma ReapedOnce(w: World, z: nat)
    requires Inv(w) && z < NPROC && w.procs[z].state == ZOMBIE
    ensures w.procs[z].pid in w.exits && w.exits[w.procs[z].pid] == w.procs[z].xstate
    ensures forall k :: 0 <= k < |w.reaped| ==> w.reaped[k].0 != w.procs[z].pid
  {}

  lemma PidsBelow(w: World)
    requires Inv(w)
    ensures forall k :: 0 <= k < NPROC && Live(w.procs[k]) ==> w.procs[k].pid < w.nextpid
  {}

  /** Slot k once the first i slots have been given to the first process. */
  function AdoptedUpTo(procs: Table, c: int, i: nat, found: bool, k: nat): Proc
    requires k < NPROC
  {
    var q := if k < i && procs[k].parent == c then procs[k].(parent := 0) else procs[k];
    if k == 0 && found then Woken(q, Process(0)) else q
  }
}
