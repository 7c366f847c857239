/** What runs of the process table say about single processes: whose status wait delivers, and what
    becomes of a killed process. */
module ProcessRuns {
  import opened Processes
  import opened ProcessSafety

  /** One event more at the end of a run. */
  lemma RunSnoc(w: World, es: seq<Event>, k: nat)
    requires k < |es|
    ensures Run(w, es[..k + 1]) == Next(Run(w, es[..k]), es[k])
  {
    hide Next;
    assert es[..k + 1] == es[..k] + [es[k]];
    RunConcat(w, es[..k], [es[k]]);
    RunOne(Run(w, es[..k]), es[k]);
  }

  // ---------- exit and wait ----------

  /** Event k of the run is the exit, with this status, of the process with this pid. */
  ghost predicate ExitOf(w: World, es: seq<Event>, k: int, pid: nat, status: int) {
    && 0 <= k < |es| && es[k] == Exit(status)
    && var v := Run(w, es[..k]);
       0 < v.current < NPROC && v.procs[v.current].pid == pid
  }

  /** Only an exit is recorded, under the pid of the process that calls it and with the status it gives. */
  lemma ExitsChange(w: World, e: Event, pid: nat)
    requires Inv(w) && pid in Next(w, e).exits
    ensures || (pid in w.exits && Next(w, e).exits[pid] == w.exits[pid])
            || (0 < w.current < NPROC && w.procs[w.current].pid == pid && e == Exit(Next(w, e).exits[pid]))
  {
    hide Numbered, Parented, NoLostWakeup, Accounted, Pick, Exited, Boost, HasChild;
  }

  lemma {:induction false} RecordedExits(w: World, es: seq<Event>, n: nat, pid: nat)
    requires Inv(w) && n <= |es| && w.exits == map[] && pid in Run(w, es[..n]).exits
    ensures exists k :: k < n && ExitOf(w, es, k, pid, Run(w, es[..n]).exits[pid])
  {
    hide Inv, Next;
    if n > 0 {
      var v := Run(w, es[..n - 1]);
      RunsAreSafe(w, es[..n - 1]);
      RunSnoc(w, es, n - 1);
      ExitsChange(v, es[n - 1], pid);
      if pid in v.exits && Next(v, es[n - 1]).exits[pid] == v.exits[pid] {
        RecordedExits(w, es, n - 1, pid);
        var k :| k < n - 1 && ExitOf(w, es, k, pid, v.exits[pid]);
      } else {
        assert ExitOf(w, es, n - 1, pid, Run(w, es[..n]).exits[pid]);
      }
    }
  }

  /** In every run from boot: a pid and a status that wait delivers are those of a process that called
      exit with that status. */
  lemma DeliveredIsExit(es: seq<Event>, r: nat) returns (k: nat)
    requires r < |Run(Boot(), es).reaped|
    ensures ExitOf(Boot(), es, k, Run(Boot(), es).reaped[r].0, Run(Boot(), es).reaped[r].1)
  {
    hide Next, ExitOf, Scheduled, Numbered, Parented, NoLostWakeup;
    BootIsSafe();
    RunsAreSafe(Boot(), es);
    var w := Run(Boot(), es);
    var pid := w.reaped[r].0;
    assert pid in w.exits && w.exits[pid] == w.reaped[r].1;
    assert es[..|es|] == es;
    RecordedExits(Boot(), es, |es|, pid);
    var j :| j < |es| && ExitOf(Boot(), es, j, pid, w.exits[pid]);
    AtLeastZero(Boot(), es, j, pid, w.exits[pid]);
    k := j;
  }

  lemma AtLeastZero(w: World, es: seq<Event>, k: int, pid: nat, status: int)
    requires ExitOf(w, es, k, pid, status)
    ensures k >= 0
  {}

  // ---------- kill ----------

  /** No pid but 0, which slots have before their first process, stands in two slots, in use or not. */
  ghost predicate PidsApart(w: World) {
    && (forall i :: 0 <= i < NPROC ==> w.procs[i].pid < w.nextpid) && w.nextpid > 0
    && forall i, j :: 0 <= i < NPROC && 0 <= j < NPROC && w.procs[i].pid != 0 && w.procs[i].pid == w.procs[j].pid
         ==> i == j
  }

  lemma SamePids(w: World, w': World)
    requires PidsApart(w) && w'.nextpid == w.nextpid
    requires forall i :: 0 <= i < NPROC ==> w'.procs[i].pid == w.procs[i].pid
    ensures PidsApart(w')
  {}

  lemma PidsSame(w: World, e: Event, i: nat)
    requires Inv(w) && i < NPROC && !e.Fork?
    ensures Next(w, e).procs[i].pid == w.procs[i].pid && Next(w, e).nextpid == w.nextpid
  {
    hide Numbered, Parented, NoLostWakeup, Accounted, Pick, HasChild;
  }

  lemma ForkApart(w: World)
    requires Inv(w) && PidsApart(w)
    ensures PidsApart(Next(w, Fork))
  {
    hide Numbered, Parented, NoLostWakeup, Accounted, Scheduled;
  }

  lemma StepApart(w: World, e: Event)
    requires Inv(w) && PidsApart(w)
    ensures PidsApart(Next(w, e))
  {
    hide Inv, PidsApart, Next;
    if e.Fork? {
      ForkApart(w);
    } else {
      forall i | 0 <= i < NPROC ensures Next(w, e).procs[i].pid == w.procs[i].pid {
        PidsSame(w, e, i);
      }
      PidsSame(w, e, 0);
      SamePids(w, Next(w, e));
    }
  }

  lemma {:induction false} RunsApart(w: World, es: seq<Event>)
    requires Inv(w) && PidsApart(w)
    ensures PidsApart(Run(w, es))
    decreases |es|
  {
    hide Inv, PidsApart, Next;
    if |es| > 0 {
      StepKeeps(w, es[0]);
      StepApart(w, es[0]);
      RunsApart(Next(w, es[0]), es[1..]);
    }
  }

  lemma FoundByPid(w: World, i: nat)
    requires Inv(w) && PidsApart(w) && i < NPROC && Live(w.procs[i])
    ensures FirstPid(w.procs, w.procs[i].pid, 0) == i
  {
    hide Scheduled, Parented, NoLostWakeup, Accounted;
    var k := FirstPid(w.procs, w.procs[i].pid, 0);
    assert w.procs[k].pid == w.procs[i].pid;
  }

  /** kill reaches the process with the pid: it is marked and awake, and nothing else changes. */
  lemma KillReaches(w: World, i: nat)
    requires Inv(w) && PidsApart(w) && 0 <= w.current && i < NPROC && Live(w.procs[i])
    ensures var w' := Next(w, Kill(w.procs[i].pid));
            && w' == w.(procs := w.procs[i := w'.procs[i]]) && w'.procs[i].killed && w'.procs[i].state != SLEEPING
            && w'.procs[i] == w.procs[i].(killed := true, state := w'.procs[i].state)
            && (w.procs[i].state == SLEEPING ==> w'.procs[i].state == RUNNABLE)
            && (w.procs[i].state != SLEEPING ==> w'.procs[i].state == w.procs[i].state)
  {
    hide Numbered, Parented, NoLostWakeup, Accounted, PidsApart, FirstPid;
    FoundByPid(w, i);
  }

  /** So it does after every run from boot. */
  lemma KillWorks(es: seq<Event>, i: nat)
    requires Run(Boot(), es).current >= 0 && i < NPROC && Live(Run(Boot(), es).procs[i])
    ensures var w := Run(Boot(), es);
            var w' := Next(w, Kill(w.procs[i].pid));
            && w' == w.(procs := w.procs[i := w'.procs[i]])
            && w'.procs[i] == w.procs[i].(killed := true, state := if w.procs[i].state == SLEEPING then RUNNABLE
                                                                   else w.procs[i].state)
  {
    hide Next, Inv, PidsApart;
    BootIsSafe();
    RunsAreSafe(Boot(), es);
    BootApart();
    RunsApart(Boot(), es);
    KillReaches(Run(Boot(), es), i);
  }

  lemma BootApart()
    ensures PidsApart(Boot())
  {}

  /** The mark and its process stay, or wait frees the slot. */
  ghost predicate Marked(p: Proc, q: Proc) {
    (q.killed && Live(q) && q.pid == p.pid) || (p.state == ZOMBIE && q.state == UNUSED)
  }

  lemma ExitMarked(w: World, status: int, i: nat)
    requires Inv(w) && 0 < w.current && i < NPROC && w.procs[i].killed && Live(w.procs[i])
    ensures Marked(w.procs[i], Next(w, Exit(status)).procs[i])
  {
    hide Numbered, NoLostWakeup, Accounted, Exited;
    NotOwnParent(w, w.current);
    ExitedAt(w.procs, w.current, status, i);
  }

  lemma WaitMarked(w: World, i: nat)
    requires Inv(w) && 0 <= w.current && i < NPROC && w.procs[i].killed && Live(w.procs[i])
    ensures Marked(w.procs[i], Next(w, Wait).procs[i])
  {
    hide Numbered, Parented, NoLostWakeup, Accounted, HasChild;
  }

  lemma OtherMarked(w: World, e: Event, i: nat)
    requires Inv(w) && i < NPROC && w.procs[i].killed && Live(w.procs[i])
    requires w.current == -1 || !(e.Exit? || e.Wait?)
    ensures Marked(w.procs[i], Next(w, e).procs[i])
  {
    hide Numbered, Parented, NoLostWakeup, Accounted, Pick, Exited, HasChild;
  }

  /** The mark goes only with the process: when wait frees its slot. */
  lemma MarkStays(w: World, e: Event, i: nat)
    requires Inv(w) && i < NPROC && w.procs[i].killed && Live(w.procs[i])
    ensures Marked(w.procs[i], Next(w, e).procs[i])
  {
    hide Numbered, Parented, NoLostWakeup, Accounted, Next, Marked;
    if w.current > 0 && e.Exit? {
      ExitMarked(w, e.status, i);
    } else if w.current >= 0 && e.Wait? {
      WaitMarked(w, i);
    } else if w.current == 0 && e.Exit? {
      FirstStays(w, e.status, i);
    } else {
      OtherMarked(w, e, i);
    }
  }

  lemma FirstStays(w: World, status: int, i: nat)
    requires w.current == 0 && i < NPROC && w.procs[i].killed && Live(w.procs[i])
    ensures Marked(w.procs[i], Next(w, Exit(status)).procs[i])
  {}

  /** Over runs: as long as the process has not been waited for, it stays marked. */
  lemma {:induction false} KilledForGood(w: World, es: seq<Event>, i: nat, n: nat)
    requires Inv(w) && i < NPROC && w.procs[i].killed && n <= |es|
    requires forall k :: 0 <= k <= n ==> Live(Run(w, es[..k]).procs[i])
    ensures Run(w, es[..n]).procs[i].killed && Run(w, es[..n]).procs[i].pid == w.procs[i].pid
  {
    hide Inv, Next;
    if n == 0 {
      assert Run(w, es[..0]) == w;
    } else {
      KilledForGood(w, es, i, n - 1);
      var v := Run(w, es[..n - 1]);
      RunsAreSafe(w, es[..n - 1]);
      RunSnoc(w, es, n - 1);
      assert Live(Run(w, es[..n]).procs[i]);
      MarkStays(v, es[n - 1], i);
    }
  }
}
