/** Spinlocks on one processor and their hand-over at context switches: spinlock.c, and the parts of
    proc.c around swtch. */
module Locks {
  import Processes

  const NPROC := Processes.NPROC

  /** The lock of a process, or any other lock. */
  datatype LockId = P(slot: nat) | L(id: nat)

  /** Where a process that is not on the processor will go on, with the variable `origin` that
      proc_sched keeps on its stack: in fork_return, after a yield, in proc_sleep with the lock to
      take back, or nowhere, after an exit. */
  datatype Cont = NotStarted | Yielding(origin: bool) | Asleep(origin: bool, lk: LockId) | Gone

  /** The lock of wait and exit. */
  const WAIT_LOCK := L(0)

  class Processor {
    var noff: int
    var origin: bool
    var intr: bool
    /** The locks whose word is set; on one processor the running thread holds them all. */
    var held: set<LockId>
    /** The process on the processor; -1 in the scheduler. */
    var current: int
    var conts: seq<Cont>
    /** The interrupt state from which the outermost lock now held was taken, and the one from which
        each switched-out process took its own. */
    ghost var outer: bool
    ghost var before: seq<bool>

    /** Interrupts are off while any lock is held, noff counts the locks, and what will be restored
        is what was found. */
    ghost predicate Valid()
      reads this
    {
      && noff == |held| && (intr ==> held == {}) && (held != {} ==> origin == outer)
      && -1 <= current < NPROC && |conts| == NPROC && |before| == NPROC
      && forall p :: 0 <= p < NPROC && (conts[p].Yielding? || conts[p].Asleep?) ==> conts[p].origin == before[p]
    }

    constructor ()
      ensures Valid() && held == {} && current == -1 && forall p :: 0 <= p < NPROC ==> conts[p] == NotStarted
    {
      noff, origin, intr, held, current := 0, false, false, {}, -1;
      conts := seq(NPROC, _ => NotStarted);
      outer, before := false, seq(NPROC, _ => false);
    }

    method PushOff()
      modifies this`noff, this`origin, this`intr
      ensures !intr && noff == old(noff) + 1 && origin == if old(noff) == 0 then old(intr) else old(origin)
    {
      var was := intr;
      intr := false;
      if noff == 0 { origin := was; }
      noff := noff + 1;
    }

    /** pop_off: false stands for its panics. */
    method PopOff() returns (ok: bool)
      modifies this`noff, this`intr
      ensures ok <==> !old(intr) && old(noff) >= 1
      ensures ok ==> noff == old(noff) - 1 && intr == (noff == 0 && origin)
    {
      if intr || noff < 1 { return false; }
      noff := noff - 1;
      if noff == 0 && origin { intr := true; }
      return true;
    }

    /** spinlock_acquire: taking a lock twice panics, and with one processor nobody ever spins. */
    method Acquire(lk: LockId) returns (ok: bool)
      requires Valid()
      modifies this`noff, this`origin, this`intr, this`held, this`outer
      ensures ok <==> lk !in old(held)
      ensures ok ==>
        Valid() && held == old(held) + {lk} && !intr && outer == if old(held) == {} then old(intr) else old(outer)
    {
      PushOff();
      if lk in held { return false; }
      if held == {} { outer := origin; }
      held := held + {lk};
      return true;
    }

    /** spinlock_release: the last lock released brings back the interrupt state found at the first. */
    method Release(lk: LockId) returns (ok: bool)
      requires Valid()
      modifies this`noff, this`intr, this`held
      ensures ok <==> lk in old(held)
      ensures ok ==> Valid() && held == old(held) - {lk} && intr == (held == {} && outer)
    {
      if lk !in held { return false; }
      assert held == {lk} <==> |held| == 1 by { OneElement(held, lk); }
      held := held - {lk};
      ok := PopOff();
    }

    /** swtch, in either direction: the only lock held is that of the process switched from or to,
        noff is 1, and interrupts are off. */
    method Swtch(p: nat, to: int)
      requires p < NPROC && held == {P(p)} && noff == 1 && !intr && (to == p || to == -1)
      modifies this`current
      ensures current == to
    {
      current := to;
    }

    /** proc_sched with the scheduler's code behind its swtch: false stands for its panics. What the
        process will do next is kept with the interrupt state in its `origin`. */
    method Sched(next: Cont) returns (ok: bool)
      requires Valid() && 0 <= current && !next.NotStarted?
      modifies this
      ensures ok <==> P(old(current)) in old(held) && |old(held)| == 1
      ensures ok ==> var p := old(current);
        && Valid() && held == {} && current == -1 && intr == old(outer) && before == old(before)[p := old(outer)]
        && conts == old(conts)[p := if next.Gone? then Gone else next.(origin := old(outer))]
    {
      var p := current;
      if P(p) !in held || noff != 1 || intr { return false; }
      OneElement(held, P(p));
      conts := conts[p := if next.Gone? then Gone else next.(origin := origin)];
      before := before[p := outer];
      Swtch(p, -1);
      ok := Release(P(p));
    }

    /** proc_yield up to the scheduler. It panics exactly if the process holds a lock. */
    method Yield() returns (ok: bool)
      requires Valid() && 0 <= current
      modifies this
      ensures ok <==> old(held) == {}
      ensures ok ==> var p := old(current);
        && Valid() && held == {} && current == -1 && before[p] == old(intr) && conts[p].Yielding?
        && forall q :: 0 <= q < NPROC && q != p ==> conts[q] == old(conts)[q] && before[q] == old(before)[q]
    {
      ok := Acquire(P(current));
      if !ok { return; }
      assert |held| == 1 <==> old(held) == {} by { OneElement(held, P(current)); }
      ok := Sched(Yielding(false));
    }

    /** A timer interrupt: in user mode, where no lock is held, or in the kernel, where it is taken
        only with interrupts on. The trap turns them off, so that is the state the yield finds; and
        the yield never panics. */
    method Tick(user: bool) returns (ok: bool)
      requires Valid() && 0 <= current && if user then held == {} else intr
      modifies this
      ensures ok && Valid() && held == {} && current == -1 && !before[old(current)]
      ensures conts[old(current)] == Yielding(false)
    {
      intr := false;
      ok := Yield();
    }

    /** The way of proc_sleep and proc_exit from another lock to the process's own: own first. */
    method SwapFor(lk: LockId) returns (ok: bool)
      requires Valid() && 0 <= current
      modifies this`noff, this`origin, this`intr, this`held, this`outer
      ensures ok <==> P(current) !in old(held) && (lk in old(held) || lk == P(current))
      ensures ok ==> Valid() && held == old(held) + {P(current)} - {lk}
      ensures ok && lk in old(held) ==> outer == old(outer) && !intr
    {
      ok := Acquire(P(current));
      if !ok { return; }
      ok := Release(lk);
    }

    /** proc_sleep up to the scheduler: the process must hold the lock it names and no other. */
    method Sleep(lk: LockId) returns (ok: bool)
      requires Valid() && 0 <= current
      modifies this
      ensures ok <==> old(held) == {lk} && lk != P(old(current))
      ensures ok ==> var p := old(current);
        && Valid() && held == {} && current == -1 && before[p] == old(outer) && conts[p] == Asleep(old(outer), lk)
        && forall q :: 0 <= q < NPROC && q != p ==> conts[q] == old(conts)[q] && before[q] == old(before)[q]
    {
      ok := SwapFor(lk);
      if !ok { return; }
      if P(current) in held { OneElement(held, P(current)); }
      ok := Sched(Asleep(false, lk));
    }

    /** proc_exit's way into the scheduler: wait_lock is held until its own lock is, so that a waiting
        parent cannot look in between; the process is never resumed. */
    method Exit() returns (ok: bool)
      requires Valid() && 0 <= current
      modifies this
      ensures ok <==> old(held) == {}
      ensures ok ==> var p := old(current);
        && Valid() && held == {} && current == -1 && conts == old(conts)[p := Gone]
        && forall q :: 0 <= q < NPROC && q != p ==> before[q] == old(before)[q]
    {
      ok := Acquire(WAIT_LOCK);
      if !ok { return; }
      ok := SwapFor(WAIT_LOCK);
      if !ok { return; }
      OnlyOwn(old(held), held, P(current));
      ok := Sched(Gone);
    }

    /** The scheduler takes process q: after a yield it gets back its own interrupt state, after a
        sleep its lock, below which that state waits; a new process starts with interrupts on. */
    method Dispatch(q: nat) returns (ok: bool)
      requires Valid() && current == -1 && held == {} && q < NPROC
      requires !conts[q].Gone? && (conts[q].Asleep? ==> conts[q].lk != P(q))
      modifies this
      ensures ok && Valid() && current == q && conts == old(conts) && before == old(before)
      ensures match conts[q]
              case NotStarted => held == {} && intr
              case Yielding(_) => held == {} && intr == before[q]
              case Asleep(_, lk) => held == {lk} && !intr && outer == before[q]
              case Gone => false
    {
      intr := true;
      ok := Acquire(P(q));
      Swtch(q, q);
      match conts[q]
      case NotStarted =>
        ok := Release(P(q));
      case Yielding(o) =>
        origin := o;
        outer := o;
        ok := Release(P(q));
      case Asleep(o, lk) =>
        origin := o;
        outer := o;
        ok := Release(P(q));
        ok := Acquire(lk);
    }
  }

  lemma OnlyOwn(h: set<LockId>, now: set<LockId>, x: LockId)
    requires x !in h && x != WAIT_LOCK && now == h + {WAIT_LOCK} + {x} - {WAIT_LOCK} && WAIT_LOCK !in h
    ensures now == h + {x} && (|now| == 1 <==> h == {}) && x in now
  {
    OneElement(now, x);
    assert now - {x} == h;
  }

  lemma OneElement(s: set<LockId>, x: LockId)
    requires x in s
    ensures |s| == 1 <==> s == {x}
    ensures |s - {x}| == |s| - 1
  {
    assert s == (s - {x}) + {x};
    if |s| == 1 {
      assert |s - {x}| == 0;
    }
  }
}

/** Sleep locks over the process table: sleeplock.c. */
module SleepLocks {
  import opened Processes
  import opened ProcessSafety

  /** A sleep lock, by the address its waiters sleep on. */
  datatype SleepLock = SleepLock(locked: bool, pid: int)

  datatype Kernel = Kernel(w: World, locks: map<nat, SleepLock>)

  /** Taking and dropping a sleep lock, each in one go with interrupts off up to the switch (a
      process that finds the lock taken goes to sleep on it and tries again later), and everything
      else. */
  datatype Act = Take(id: nat) | Drop(id: nat) | Else(e: Event)

  /** Nobody else sleeps on the address of a sleep lock. */
  predicate Fair(k: Kernel, a: Act) {
    match a
    case Take(id) => id in k.locks && 0 <= k.w.current < NPROC
    case Drop(id) => id in k.locks && 0 <= k.w.current < NPROC
    case Else(e) => e.Sleep? ==> e.id !in k.locks
  }

  function Do(k: Kernel, a: Act): Kernel
    requires Fair(k, a)
  {
    match a
    case Take(id) =>
      if k.locks[id].locked then k.(w := Next(k.w, Sleep(id)))
      else k.(locks := k.locks[id := SleepLock(true, k.w.procs[k.w.current].pid)])
    case Drop(id) => Kernel(Next(k.w, WakeAll(id)), k.locks[id := SleepLock(false, -1)])
    case Else(e) => k.(w := Next(k.w, e))
  }

  predicate AsleepOn(p: Proc, id: nat) { p.state == SLEEPING && p.chan == Address(id) }

  /** No process sleeps on a sleep lock that is free. */
  ghost predicate NobodyForgotten(k: Kernel) {
    forall i, id :: 0 <= i < NPROC && id in k.locks && AsleepOn(k.w.procs[i], id) ==> k.locks[id].locked
  }

  /** Only going to sleep on an address puts anybody to sleep there. */
  lemma SleepersStay(w: World, e: Event, i: nat, id: nat)
    requires i < NPROC && AsleepOn(Next(w, e).procs[i], id)
    ensures AsleepOn(w.procs[i], id) || e == Sleep(id)
  {
    hide Pick, FirstZombieChild, FirstUnused, FirstPid;
  }

  /** A wakeup leaves nobody but the caller asleep. */
  lemma AllAwake(w: World, id: nat, i: nat)
    requires i < NPROC && Scheduled(w)
    ensures !AsleepOn(Next(w, WakeAll(id)).procs[i], id)
  {}

  lemma ActKeeps(k: Kernel, a: Act)
    requires Inv(k.w) && NobodyForgotten(k) && Fair(k, a)
    ensures Inv(Do(k, a).w) && NobodyForgotten(Do(k, a)) && Do(k, a).locks.Keys == k.locks.Keys
  {
    hide Numbered, Parented, NoLostWakeup, Accounted, Next;
    var k' := Do(k, a);
    var e := match a case Take(id) => Sleep(id) case Drop(id) => WakeAll(id) case Else(e) => e;
    StepKeeps(k.w, e);
    forall i, id | 0 <= i < NPROC && id in k'.locks && AsleepOn(k'.w.procs[i], id) ensures k'.locks[id].locked {
      if k'.w != k.w {
        SleepersStay(k.w, e, i, id);
      }
      if a == Drop(id) {
        AllAwake(k.w, id, i);
      }
    }
  }

  function Acts(k: Kernel, acts: seq<Act>): Kernel
    decreases |acts|
  {
    if |acts| == 0 then k else Acts(if Fair(k, acts[0]) then Do(k, acts[0]) else k, acts[1..])
  }

  /** Over whole runs: who sleeps on a sleep lock waits for somebody to drop it. */
  lemma {:induction false} NobodyIsEverForgotten(k: Kernel, acts: seq<Act>)
    requires Inv(k.w) && NobodyForgotten(k)
    ensures Inv(Acts(k, acts).w) && NobodyForgotten(Acts(k, acts))
    decreases |acts|
  {
    hide Inv, NobodyForgotten, Do;
    if |acts| > 0 {
      if Fair(k, acts[0]) {
        ActKeeps(k, acts[0]);
      }
      NobodyIsEverForgotten(if Fair(k, acts[0]) then Do(k, acts[0]) else k, acts[1..]);
    }
  }

  // ---------- mutual exclusion ----------

  /** Whoever finds the lock taken gets nothing and goes to sleep on it. */
  lemma TakeTaken(k: Kernel, id: nat)
    requires Inv(k.w) && Fair(k, Take(id)) && k.locks[id].locked
    ensures var k', c := Do(k, Take(id)), k.w.current;
            && k'.locks == k.locks && k'.w.current == -1 && AsleepOn(k'.w.procs[c], id)
            && k'.w.procs[c] == k.w.procs[c].(state := SLEEPING, chan := Address(id))
  {
    hide Numbered, Parented, NoLostWakeup, Accounted;
  }

  /** Whoever finds it free has it, and nothing else changes. */
  lemma TakeFree(k: Kernel, id: nat)
    requires Fair(k, Take(id)) && !k.locks[id].locked
    ensures var k' := Do(k, Take(id));
            && k'.w == k.w && k'.locks[id].locked && k'.locks[id].pid == k.w.procs[k.w.current].pid
            && k'.locks.Keys == k.locks.Keys && forall l :: l in k.locks && l != id ==> k'.locks[l] == k.locks[l]
  {}

  /** Dropping it frees it and wakes everybody who waits for it, and no other lock changes. */
  lemma DropFrees(k: Kernel, id: nat, i: nat)
    requires Inv(k.w) && Fair(k, Drop(id)) && i < NPROC
    ensures var k' := Do(k, Drop(id));
            && !k'.locks[id].locked && k'.locks[id].pid == -1 && k'.w.current == k.w.current
            && k'.locks.Keys == k.locks.Keys && (forall l :: l in k.locks && l != id ==> k'.locks[l] == k.locks[l])
            && k'.w.procs[i] == if AsleepOn(k.w.procs[i], id) then k.w.procs[i].(state := RUNNABLE) else k.w.procs[i]
  {
    hide Numbered, Parented, NoLostWakeup, Accounted;
  }

  lemma ActHolds(k: Kernel, a: Act, id: nat)
    requires Fair(k, a) && id in k.locks && k.locks[id].locked && a != Drop(id)
    ensures id in Do(k, a).locks && Do(k, a).locks[id] == k.locks[id]
  {
    hide Next;
  }

  /** A lock that is taken stays its holder's, whatever anybody does, until it is dropped. */
  lemma {:induction false} HeldUntilDropped(k: Kernel, acts: seq<Act>, id: nat)
    requires id in k.locks && k.locks[id].locked && Drop(id) !in acts
    ensures id in Acts(k, acts).locks && Acts(k, acts).locks[id] == k.locks[id]
    decreases |acts|
  {
    hide Do, Fair;
    if |acts| > 0 {
      var k' := if Fair(k, acts[0]) then Do(k, acts[0]) else k;
      if Fair(k, acts[0]) { ActHolds(k, acts[0], id); }
      HeldUntilDropped(k', acts[1..], id);
    }
  }

  lemma {:induction false} ActsConcat(k: Kernel, a: seq<Act>, b: seq<Act>)
    ensures Acts(k, a + b) == Acts(Acts(k, a), b)
    decreases |a|
  {
    hide Do, Fair;
    if |a| == 0 {
      assert a + b == b;
    } else {
      assert (a + b)[1..] == a[1..] + b;
      ActsConcat(if Fair(k, a[0]) then Do(k, a[0]) else k, a[1..], b);
    }
  }

  /** Act i of the run takes the lock and gets it. */
  ghost predicate Gets(k: Kernel, acts: seq<Act>, i: nat, id: nat) {
    && i < |acts| && acts[i] == Take(id)
    && var v := Acts(k, acts[..i]); Fair(v, Take(id)) && !v.locks[id].locked
  }

  lemma AfterGetting(k: Kernel, acts: seq<Act>, i: nat, id: nat)
    requires Gets(k, acts, i, id)
    ensures id in Acts(k, acts[..i + 1]).locks && Acts(k, acts[..i + 1]).locks[id].locked
  {
    hide Next;
    var v := Acts(k, acts[..i]);
    assert acts[..i + 1] == acts[..i] + [acts[i]];
    ActsConcat(k, acts[..i], [acts[i]]);
    assert [acts[i]][1..] == [];
    TakeFree(v, id);
  }

  /** Mutual exclusion: between two acts that get the same lock, it is dropped. */
  lemma OneHolder(k: Kernel, acts: seq<Act>, i: nat, j: nat, id: nat) returns (d: nat)
    requires i < j && Gets(k, acts, i, id) && Gets(k, acts, j, id)
    ensures i < d < j && acts[d] == Drop(id)
  {
    hide Do, Next;
    var between := acts[i + 1..j];
    if Drop(id) in between {
      var n :| 0 <= n < |between| && between[n] == Drop(id);
      d := i + 1 + n;
    } else {
      AfterGetting(k, acts, i, id);
      HeldUntilDropped(Acts(k, acts[..i + 1]), between, id);
      assert acts[..j] == acts[..i + 1] + between;
      ActsConcat(k, acts[..i + 1], between);
      assert false;
    }
  }
}
