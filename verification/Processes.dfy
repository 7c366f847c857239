/** The process table and its operations as state transitions on the one processor. Most run with
    interrupts off from the first lock they take to the last they release, or to the switch to the
    scheduler. The scheduler's scan and its aging loop do not, and a wakeup by an interrupt may fall
    between two slots: wakeups therefore also come one slot at a time, and the interrupted loops are
    runs of such steps (`ScanInterrupted`, `SwitchInterrupted`). proc_kill lets interrupts in between the
    slots it passes, too, and changes the one slot it looks for under that slot's lock. */
module Processes {

  const NPROC := 64
  const PRIORITY_MIN := 0
  const PRIORITY_MAX := 15
  const PRIORITY_DEFAULT := 8

  datatype State = UNUSED | RUNNABLE | RUNNING | SLEEPING | ZOMBIE

  /** What a process sleeps on: nothing, the process in a slot, or any other address. */
  datatype Channel = Nothing | Process(slot: nat) | Address(id: nat)

  /** A slot of the table; `parent` is a slot, or -1. */
  datatype Proc = Proc(state: State, pid: nat, parent: int, chan: Channel, xstate: int, killed: bool,
                       priority: int, boost: int)

  const FREE := Proc(UNUSED, 0, -1, Nothing, 0, false, PRIORITY_DEFAULT, 0)

  type Table = t: seq<Proc> | |t| == NPROC witness seq<Proc>(NPROC, (_: nat) => FREE)

  /** The table, the pid counter, the process on the processor (-1 in the scheduler), and the
      history: the exit status of every process that exited, and the statuses wait delivered. */
  datatype World = World(procs: Table, nextpid: nat, current: int, exits: map<nat, int>, reaped: seq<(nat, int)>)

  // ---------- choosing ----------

  function Effective(p: Proc): int {
    if p.priority + p.boost > PRIORITY_MAX then PRIORITY_MAX else p.priority + p.boost
  }

  /** The scheduler's scan from slot i on, with its best candidate so far (-1 for none). */
  function PickFrom(procs: Table, i: nat, best: int): int
    requires i <= NPROC && -1 <= best < NPROC
    decreases NPROC - i
  {
    if i == NPROC then best
    else PickFrom(procs, i + 1, if Improves(procs, i, best) then i else best)
  }

  predicate Improves(procs: Table, i: nat, best: int)
    requires i < NPROC && -1 <= best < NPROC
  {
    && procs[i].state == RUNNABLE
    && (best == -1
        || Effective(procs[i]) > Effective(procs[best])
        || (Effective(procs[i]) == Effective(procs[best]) && procs[i].pid < procs[best].pid))
  }

  function Pick(procs: Table): int {
    PickFrom(procs, 0, -1)
  }

  /** Slot c is RUNNABLE and no RUNNABLE slot of the first n beats it: highest effective
      priority, and among equals the smallest pid. */
  ghost predicate IsBest(procs: Table, n: nat, c: int)
    requires n <= NPROC
  {
    && 0 <= c < NPROC && procs[c].state == RUNNABLE
    && forall i :: 0 <= i < n && procs[i].state == RUNNABLE ==>
         || Effective(procs[i]) < Effective(procs[c])
         || (Effective(procs[i]) == Effective(procs[c]) && procs[c].pid <= procs[i].pid)
  }

  lemma {:induction false} PickFromIsBest(procs: Table, i: nat, best: int)
    requires i <= NPROC && -1 <= best < NPROC
    requires if best == -1 then forall k :: 0 <= k < i ==> procs[k].state != RUNNABLE else IsBest(procs, i, best)
    ensures var c := PickFrom(procs, i, best);
            if c == -1 then forall k :: 0 <= k < NPROC ==> procs[k].state != RUNNABLE else IsBest(procs, NPROC, c)
    decreases NPROC - i
  {
    if i < NPROC {
      PickFromIsBest(procs, i + 1, if Improves(procs, i, best) then i else best);
    }
  }

  /** The scan finds the best process, and finds one whenever one is RUNNABLE. */
  lemma PickIsBest(procs: Table)
    ensures var c := Pick(procs);
            if c == -1 then forall k :: 0 <= k < NPROC ==> procs[k].state != RUNNABLE else IsBest(procs, NPROC, c)
  {
    PickFromIsBest(procs, 0, -1);
  }

  // ---------- the table operations ----------

  /** boost_waiting_processes: everybody RUNNABLE but the last to run ages by one, up to the cap. */
  function Boosted(p: Proc): Proc {
    if p.state == RUNNABLE && p.boost < PRIORITY_MAX - p.priority then p.(boost := p.boost + 1) else p
  }

  function Boost(procs: Table, last: int): Table {
    seq(NPROC, i requires 0 <= i < NPROC => if i == last then procs[i] else Boosted(procs[i]))
  }

  /** proc_wakeup: everybody asleep on the channel but the caller. */
  function Woken(p: Proc, chan: Channel): Proc {
    if p.state == SLEEPING && p.chan == chan then p.(state := RUNNABLE) else p
  }

  function Wakeup(procs: Table, chan: Channel, caller: int): Table {
    seq(NPROC, i requires 0 <= i < NPROC => if i == caller then procs[i] else Woken(procs[i], chan))
  }

  /** proc_wakeup's turn at one slot. */
  function WakeAt(procs: Table, chan: Channel, slot: nat, caller: int): Table {
    if slot < NPROC && slot != caller then procs[slot := Woken(procs[slot], chan)] else procs
  }

  /** proc_reparent and the wakeups of proc_exit: the children of c go to slot 0, which is woken
      if there are any, and so is c's parent if it waits. */
  predicate HasChild(procs: Table, c: int) {
    exists i :: 0 <= i < NPROC && procs[i].parent == c
  }

  function Adopted(procs: Table, c: int): Table {
    seq(NPROC, i requires 0 <= i < NPROC =>
      var q := if procs[i].parent == c then procs[i].(parent := 0) else procs[i];
      if i == 0 && HasChild(procs, c) then Woken(q, Process(0)) else q)
  }

  function WakeOne(procs: Table, i: int): Table {
    if 0 <= i < NPROC then procs[i := Woken(procs[i], Process(i))] else procs
  }

  function Exited(procs: Table, c: nat, status: int): Table
    requires c < NPROC
  {
    var t := WakeOne(Adopted(procs, c), procs[c].parent);
    t[c := t[c].(xstate := status, state := ZOMBIE)]
  }

  /** The first slot from i on that satisfies what wait, fork and kill look for; NPROC if none. */
  function FirstZombieChild(procs: Table, c: int, i: nat): (r: nat)
    requires i <= NPROC
    ensures i <= r <= NPROC && (r < NPROC ==> procs[r].parent == c && procs[r].state == ZOMBIE)
    ensures forall k :: i <= k < r ==> !(procs[k].parent == c && procs[k].state == ZOMBIE)
    decreases NPROC - i
  {
    if i == NPROC then NPROC
    else if procs[i].parent == c && procs[i].state == ZOMBIE then i
    else FirstZombieChild(procs, c, i + 1)
  }

  function FirstUnused(procs: Table, i: nat): (r: nat)
    requires i <= NPROC
    ensures i <= r <= NPROC && (r < NPROC ==> procs[r].state == UNUSED)
    ensures forall k :: i <= k < r ==> procs[k].state != UNUSED
    decreases NPROC - i
  {
    if i == NPROC then NPROC else if procs[i].state == UNUSED then i else FirstUnused(procs, i + 1)
  }

  function FirstPid(procs: Table, pid: int, i: nat): (r: nat)
    requires i <= NPROC
    ensures i <= r <= NPROC && (r < NPROC ==> procs[r].pid == pid)
    ensures forall k :: i <= k < r ==> procs[k].pid != pid
    decreases NPROC - i
  {
    if i == NPROC then NPROC else if procs[i].pid == pid then i else FirstPid(procs, pid, i + 1)
  }

  /** proc_free: the slot keeps its stale pid. */
  function Freed(p: Proc): Proc {
    p.(state := UNUSED, parent := -1, chan := Nothing, killed := false, xstate := 0,
       priority := PRIORITY_DEFAULT, boost := 0)
  }

  /** fork: the slot keeps whatever killed, chan and xstate it had. */
  function Forked(slot: Proc, pid: nat, parent: nat, father: Proc): Proc {
    slot.(state := RUNNABLE, pid := pid, parent := parent, priority := father.priority, boost := father.boost)
  }

  // ---------- steps ----------

  datatype Event =
    | Dispatch
    | Yield
    | Sleep(id: nat)
    | Exit(status: int)
    | Wait
    | Fork
    | WakeAll(id: nat)
    | WakeSlot(id: nat, slot: nat)
    | Kill(pid: int)
    | SetPriority(priority: int)

  /** The process leaves the processor: back in the scheduler, everybody else ages. */
  function SwitchOut(w: World, procs: Table): World {
    w.(procs := Boost(procs, w.current), current := -1)
  }

  function WaitStep(w: World): World
    requires 0 <= w.current < NPROC
  {
    var c := w.current;
    var z := FirstZombieChild(w.procs, c, 0);
    if z < NPROC then
      w.(procs := w.procs[z := Freed(w.procs[z])], reaped := w.reaped + [(w.procs[z].pid, w.procs[z].xstate)])
    else if !HasChild(w.procs, c) || w.procs[c].killed then w
    else SwitchOut(w, w.procs[c := w.procs[c].(state := SLEEPING, chan := Process(c))])
  }

  function ForkStep(w: World): World
    requires 0 <= w.current < NPROC
  {
    var n := FirstUnused(w.procs, 0);
    if n == NPROC then w
    else w.(procs := w.procs[n := Forked(w.procs[n], w.nextpid, w.current, w.procs[w.current])],
      nextpid := w.nextpid + 1)
  }

  /** An event out of place (a process event with nobody on the processor, a dispatch with
      somebody, the exit of the first process, which panics) changes nothing. */
  function Next(w: World, e: Event): World {
    if w.current < 0 || w.current >= NPROC then
      match e
      case Dispatch =>
        var c := Pick(w.procs);
        if 0 <= c < NPROC then
          w.(procs := w.procs[c := w.procs[c].(state := RUNNING, boost := 0, chan := Nothing)], current := c)
        else w
      case WakeAll(id) => w.(procs := Wakeup(w.procs, Address(id), -1))
      case WakeSlot(id, slot) => w.(procs := WakeAt(w.procs, Address(id), slot, -1))
      case _ => w
    else
      var c := w.current;
      match e
      case Dispatch => w
      case Yield => SwitchOut(w, w.procs[c := w.procs[c].(state := RUNNABLE)])
      case Sleep(id) => SwitchOut(w, w.procs[c := w.procs[c].(state := SLEEPING, chan := Address(id))])
      case Exit(status) =>
        if c == 0 then w
        else SwitchOut(w, Exited(w.procs, c, status)).(exits := w.exits[w.procs[c].pid := status])
      case Wait => WaitStep(w)
      case Fork => ForkStep(w)
      case WakeAll(id) => w.(procs := Wakeup(w.procs, Address(id), c))
      case WakeSlot(id, slot) => w.(procs := WakeAt(w.procs, Address(id), slot, c))
      case Kill(pid) =>
        var k := FirstPid(w.procs, pid, 0);
        if k == NPROC then w
        else w.(procs := w.procs[k := w.procs[k].(killed := true,
                                                  state := if w.procs[k].state == SLEEPING then RUNNABLE
                                                    else w.procs[k].state)])
      case SetPriority(priority) =>
        if PRIORITY_MIN <= priority <= PRIORITY_MAX then
          w.(procs := w.procs[c := w.procs[c].(priority := priority, boost := 0)])
        else w
  }

  function Run(w: World, es: seq<Event>): World
    decreases |es|
  {
    if |es| == 0 then w else Run(Next(w, es[0]), es[1..])
  }

  // ---------- loops that interrupts cut in pieces ----------

  /** Some of those asleep on an address were woken, and nothing else happened. */
  ghost predicate WokeSome(p: Table, q: Table) {
    forall i :: 0 <= i < NPROC ==> Awoken(p[i], q[i])
  }

  predicate Awoken(p: Proc, q: Proc) { q == p || (Sleeper(p) && q == p.(state := RUNNABLE)) }

  predicate Sleeper(p: Proc) { p.state == SLEEPING && p.chan.Address? }

  /** The wakeups that lead from p to q, slot by slot. */
  function WakesTo(p: Table, q: Table, n: nat): seq<Event>
    requires n <= NPROC
  {
    if n == 0 then []
    else
      var one := if Sleeper(p[n - 1]) && q[n - 1] != p[n - 1] then [WakeSlot(p[n - 1].chan.id, n - 1)] else [];
      WakesTo(p, q, n - 1) + one
  }

  function Mixed(p: Table, q: Table, n: nat): Table {
    seq(NPROC, i requires 0 <= i < NPROC => if i < n then q[i] else p[i])
  }

  lemma {:induction false} RunConcat(w: World, a: seq<Event>, b: seq<Event>)
    ensures Run(w, a + b) == Run(Run(w, a), b)
    decreases |a|
  {
    hide Next;
    if |a| == 0 {
      assert a + b == b;
    } else {
      assert (a + b)[1..] == a[1..] + b;
      RunConcat(Next(w, a[0]), a[1..], b);
    }
  }

  lemma RunOne(w: World, e: Event)
    ensures Run(w, [e]) == Next(w, e)
  {
    hide Next;
    assert [e][1..] == [];
  }

  /** Waking them is a run of single wakeups. */
  lemma {:induction false} WakesRun(w: World, q: Table, n: nat)
    requires WokeSome(w.procs, q) && n <= NPROC && -1 <= w.current < NPROC
    requires w.current != -1 ==> q[w.current] == w.procs[w.current]
    ensures Run(w, WakesTo(w.procs, q, n)) == w.(procs := Mixed(w.procs, q, n))
  {
    if n == 0 {
      assert Mixed(w.procs, q, 0) == w.procs;
    } else {
      WakesRun(w, q, n - 1);
      var w1 := w.(procs := Mixed(w.procs, q, n - 1));
      if Sleeper(w.procs[n - 1]) && q[n - 1] != w.procs[n - 1] {
        var e := WakeSlot(w.procs[n - 1].chan.id, n - 1);
        RunConcat(w, WakesTo(w.procs, q, n - 1), [e]);
        RunOne(w1, e);
        assert Mixed(w.procs, q, n) == Mixed(w.procs, q, n - 1)[n - 1 := q[n - 1]];
      } else {
        assert WakesTo(w.procs, q, n) == WakesTo(w.procs, q, n - 1);
        assert Mixed(w.procs, q, n) == Mixed(w.procs, q, n - 1);
      }
    }
  }

  lemma WakesAll(w: World, q: Table)
    requires WokeSome(w.procs, q) && -1 <= w.current < NPROC
    requires w.current != -1 ==> q[w.current] == w.procs[w.current]
    ensures Run(w, WakesTo(w.procs, q, NPROC)) == w.(procs := q)
  {
    WakesRun(w, q, NPROC);
    assert Mixed(w.procs, q, NPROC) == q;
  }

  /** The table as the scheduler finds it at each slot, and at the end. */
  ghost predicate Interrupted(ts: seq<Table>) {
    |ts| == NPROC + 1 && forall i :: 0 <= i < NPROC ==> WokeSome(ts[i], ts[i + 1])
  }

  /** The scan of proc_scheduler over a table that changes: it keeps the slot chosen so far and the
      effective priority that it had. */
  function ScanThrough(ts: seq<Table>, i: nat, chosen: int, best: int): int
    requires |ts| == NPROC + 1 && i <= NPROC && -1 <= chosen < NPROC
    decreases NPROC - i
  {
    if i == NPROC then chosen
    else
      var p := ts[i][i];
      if p.state == RUNNABLE
         && (chosen == -1 || Effective(p) > best || (Effective(p) == best && p.pid < ts[i][chosen].pid))
      then ScanThrough(ts, i + 1, i, Effective(p))
      else ScanThrough(ts, i + 1, chosen, best)
  }

  /** What the loop sees: each slot as it was when its turn came. */
  function Seen(ts: seq<Table>): Table
    requires |ts| == NPROC + 1
  {
    seq(NPROC, i requires 0 <= i < NPROC => ts[i][i])
  }

  lemma {:induction false} WokeThrough(ts: seq<Table>, i: nat, j: nat, k: nat)
    requires Interrupted(ts) && i <= j <= NPROC && k < NPROC
    ensures Awoken(ts[i][k], ts[j][k])
    decreases j - i
  {
    if i < j {
      WokeThrough(ts, i, j - 1, k);
      assert WokeSome(ts[j - 1], ts[j]);
    }
  }

  lemma {:induction false} ScanSees(ts: seq<Table>, i: nat, chosen: int, best: int)
    requires Interrupted(ts) && i <= NPROC && -1 <= chosen < i
    requires chosen != -1 ==> best == Effective(Seen(ts)[chosen])
    ensures ScanThrough(ts, i, chosen, best) == PickFrom(Seen(ts), i, chosen)
    decreases NPROC - i
  {
    hide Effective;
    if i < NPROC {
      if chosen != -1 { WokeThrough(ts, chosen, i, chosen); }
      if Improves(Seen(ts), i, chosen) {
        ScanSees(ts, i + 1, i, Effective(ts[i][i]));
      } else {
        ScanSees(ts, i + 1, chosen, best);
      }
    }
  }

  lemma SeenBetween(ts: seq<Table>)
    requires Interrupted(ts)
    ensures WokeSome(ts[0], Seen(ts)) && WokeSome(Seen(ts), ts[NPROC])
  {
    forall k | 0 <= k < NPROC
      ensures Awoken(ts[0][k], Seen(ts)[k]) && Awoken(Seen(ts)[k], ts[NPROC][k])
    {
      WokeThrough(ts, 0, k, k);
      WokeThrough(ts, k, NPROC, k);
    }
  }

  /** The dispatch at the end of an interrupted scan is a step of a run: those that the scan saw awake
      are woken before it, and the others after it. */
  lemma ScanInterrupted(w: World, ts: seq<Table>)
    requires w.current == -1 && Interrupted(ts) && ts[0] == w.procs
    ensures var c, end := ScanThrough(ts, 0, -1, 0), ts[NPROC];
            var before := WakesTo(w.procs, Seen(ts), NPROC);
            var mid := Next(w.(procs := Seen(ts)), Dispatch);
            && -1 <= c < NPROC
            && var after := if c == -1 then end else end[c := mid.procs[c]];
               Run(w, before + ([Dispatch] + WakesTo(mid.procs, after, NPROC))) == w.(procs := after, current := c)
               && (c != -1 ==> after[c] == end[c].(state := RUNNING, boost := 0, chan := Nothing))
  {
    hide Improves, WakesTo;
    ScanSees(ts, 0, -1, 0);
    SeenBetween(ts);
    PickIsBest(Seen(ts));
    var c, end := Pick(Seen(ts)), ts[NPROC];
    hide Pick, ScanThrough, Interrupted, PickFrom;
    WakesAll(w, Seen(ts));
    var w1 := w.(procs := Seen(ts));
    var mid := Next(w1, Dispatch);
    var after := if c == -1 then end else end[c := mid.procs[c]];
    var late := WakesTo(mid.procs, after, NPROC);
    RunConcat(w, WakesTo(w.procs, Seen(ts), NPROC), [Dispatch] + late);
    RunConcat(w1, [Dispatch], late);
    RunOne(w1, Dispatch);
    assert WokeSome(mid.procs, after);
    WakesAll(mid, after);
  }

  /** The aging loop over a table that changes: at each slot but the last to run, the process found there
      ages. */
  ghost predicate AgingThrough(us: seq<Table>, last: int) {
    && |us| == NPROC + 1
    && forall i :: 0 <= i < NPROC ==> WokeSome(if i == last then us[i] else us[i][i := Boosted(us[i][i])], us[i + 1])
  }

  /** As it was found, but for the last to run, whom the loop passes over. */
  function Found(us: seq<Table>, last: int): Table
    requires |us| == NPROC + 1
  {
    seq(NPROC, i requires 0 <= i < NPROC => if i == last then us[0][i] else us[i][i])
  }

  lemma {:induction false} Untouched(us: seq<Table>, last: int, i: nat, j: nat, k: nat)
    requires AgingThrough(us, last) && i <= j <= NPROC && k < NPROC && (k == last || j <= k || k < i)
    ensures Awoken(us[i][k], us[j][k])
    decreases j - i
  {
    hide Boosted;
    if i < j {
      Untouched(us, last, i, j - 1, k);
    }
  }

  /** An interrupted aging loop ages as if those that it found awake had been woken before it, and the
      others after it. */
  lemma AgingInterrupted(us: seq<Table>, last: int)
    requires AgingThrough(us, last)
    ensures WokeSome(us[0], Found(us, last)) && WokeSome(Boost(Found(us, last), last), us[NPROC])
    ensures 0 <= last < NPROC ==> Found(us, last)[last] == us[0][last]
  {
    forall k | 0 <= k < NPROC
      ensures Awoken(us[0][k], Found(us, last)[k]) && Awoken(Boost(Found(us, last), last)[k], us[NPROC][k])
    {
      if k == last {
        Untouched(us, last, 0, NPROC, k);
      } else {
        Untouched(us, last, 0, k, k);
        Untouched(us, last, k + 1, NPROC, k);
        assert Awoken(Boosted(us[k][k]), us[k + 1][k]);
      }
    }
  }

  /** Leaving the processor with such a loop behind it is a step of a run, too. */
  lemma SwitchInterrupted(w: World, e: Event, us: seq<Table>)
    requires 0 <= w.current < NPROC && (e.Yield? || e.Sleep?)
    requires w.procs[w.current].state == RUNNING && AgingThrough(us, w.current)
    requires us[0] == w.procs[w.current := if e.Yield? then w.procs[w.current].(state := RUNNABLE)
                                           else w.procs[w.current].(state := SLEEPING, chan := Address(e.id))]
    ensures var early := Found(us, w.current)[w.current := w.procs[w.current]];
            var mid := Next(w.(procs := early), e);
            Run(w, WakesTo(w.procs, early, NPROC) + ([e] + WakesTo(mid.procs, us[NPROC], NPROC))) ==
            w.(procs := us[NPROC], current := -1)
  {
    hide WakesTo, Boosted;
    var c := w.current;
    AgingInterrupted(us, c);
    var early := Found(us, c)[c := w.procs[c]];
    assert WokeSome(w.procs, early);
    WakesAll(w, early);
    var w1 := w.(procs := early);
    var mid := Next(w1, e);
    assert early[c := us[0][c]] == Found(us, c);
    assert mid == w.(procs := Boost(Found(us, c), c), current := -1);
    var late := WakesTo(mid.procs, us[NPROC], NPROC);
    RunConcat(w, WakesTo(w.procs, early, NPROC), [e] + late);
    RunConcat(w1, [e], late);
    RunOne(w1, e);
    WakesAll(mid, us[NPROC]);
  }

  /** After boot: the first process, pid 0, in slot 0. */
  function Boot(): World {
    World(seq(NPROC, i => if i == 0 then FREE.(state := RUNNABLE) else FREE), 2, -1, map[], [])
  }
}
