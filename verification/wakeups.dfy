// Wait and notify over whole runs: what the dispatches of all threads do to one thread's notify token is a run of a
// semaphore.
module Wakeups {
  import opened Schedule

  /** The releases for thread `t` among the actions of a dispatch. */
  function Releases(acts: seq<Action>, t: nat): seq<SemOp>
    decreases |acts|
  {
    if acts == [] then [] else (if acts[0] == DoNotify(t) then [Release] else []) + Releases(acts[1..], t)
  }

  /** What one dispatch means for the token of `t`: the notifications for it, then its own wait if it is the one running. */
  function TurnOps(s: Sched, turn: Turn, t: nat): seq<SemOp>
    requires Between(s)
  {
    if s.lists[READY] == [] then []
    else Releases(turn.acts, t) + (if s.lists[READY][0] == t && turn.leave.NotifyWait? then [Acquire] else [])
  }

  function OpsOf(s: Sched, turns: seq<Turn>, t: nat): seq<SemOp>
    requires Between(s)
    decreases |turns|
  {
    if turns == [] then [] else TurnOps(s, turns[0], t) + OpsOf(Dispatch(s, turns[0].acts, turns[0].leave), turns[1..], t)
  }

  /** Thread `t` does not end during the run. */
  predicate Lives(s: Sched, turns: seq<Turn>, t: nat)
    requires Between(s)
    decreases |turns|
  {
    turns == [] ||
    (&& (s.lists[READY] != [] && s.lists[READY][0] == t ==> !turns[0].leave.Finish?)
     && Lives(Dispatch(s, turns[0].acts, turns[0].leave), turns[1..], t))
  }

  /** Waits of a thread without an id have no effect. */
  function Effective(named: bool, ops: seq<SemOp>): seq<SemOp>
  {
    if named || ops == [] then ops else (if ops[0].Release? then [Release] else []) + Effective(named, ops[1..])
  }

  lemma {:induction false} EffectiveJoin(named: bool, a: seq<SemOp>, b: seq<SemOp>)
    ensures Effective(named, a + b) == Effective(named, a) + Effective(named, b)
    decreases |a|
  {
    if a == [] {
      assert a + b == b;
    } else if !named {
      assert (a + b)[0] == a[0] && (a + b)[1..] == a[1..] + b;
      EffectiveJoin(named, a[1..], b);
    }
  }

  lemma {:induction false} ReleasesCount(named: bool, acts: seq<Action>, t: nat)
    ensures Effective(named, Releases(acts, t)) == Releases(acts, t)
    decreases |acts|
  {
    if acts != [] {
      ReleasesCount(named, acts[1..], t);
      var rest := Releases(acts[1..], t);
      if acts[0] == DoNotify(t) { assert ([Release] + rest)[1..] == rest; } else { assert [] + rest == rest; }
    }
  }

  /** A live thread with this semaphore, and with an id of its own or not. */
  predicate Holds(s: Sched, t: nat, m: Semaphore, named: bool)
  {
    Has(s, t) && Active(s.slots[t]) && SemaphoreOf(s, t) == m && s.slots[t].named == named
  }

  lemma {:induction false} SemRunJoin(m: Semaphore, a: seq<SemOp>, b: seq<SemOp>)
    ensures SemRun(m, a + b) == SemRun(SemRun(m, a), b)
    decreases |a|
  {
    if a == [] {
      assert a + b == b;
    } else {
      assert (a + b)[0] == a[0] && (a + b)[1..] == a[1..] + b;
      SemRunJoin(if a[0].Release? then V(m) else if m.blocked then m else P(m), a[1..], b);
    }
  }

  /** No action other than a notification of `t` touches the token of the live thread `t`. */
  lemma ActOnToken(s: Sched, cur: int, a: Action, t: nat, m: Semaphore, named: bool)
    requires Inv(s, cur) && Runs(s, cur) && |s.slots| > MAIN && Holds(s, t, m, named)
    ensures forall l :: 0 <= l < |s.lists| ==> Members(s, l)
    ensures Holds(Act(s, a), t, if a == DoNotify(t) then V(m) else m, named)
  {
    AllMembers(s, cur);
    assert SlotOk(s, cur, t);
    match a
    case DoSignal(id) => SignalOnToken(s, cur, id, t, m, named);
    case _ =>
  }

  lemma SignalOnToken(s: Sched, cur: int, id: nat, t: nat, m: Semaphore, named: bool)
    requires Inv(s, cur) && Runs(s, cur) && Holds(s, t, m, named)
    ensures 0 < id <= |s.signaled| ==> Members(s, 1 + id)
    ensures Holds(Signal(s, id), t, m, named)
  {
    if 0 < id <= |s.signaled| {
      DrainAll(s, cur, 1 + id);
      DrainFlag(s, 1 + id, s.signaled[id - 1 := true]);
      Listed(s, cur, t, 1 + id);
    }
  }

  lemma {:induction false} ActAllOnToken(s: Sched, cur: int, acts: seq<Action>, t: nat, m: Semaphore, named: bool)
    requires Inv(s, cur) && Runs(s, cur) && |s.slots| > MAIN && Holds(s, t, m, named)
    ensures Holds(ActAll(s, cur, acts), t, SemRun(m, Releases(acts, t)), named)
    decreases |acts|
  {
    hide Act, Holds;
    if acts != [] {
      ActKeeps(s, cur, acts[0]);
      ActOnToken(s, cur, acts[0], t, m, named);
      var m1 := if acts[0] == DoNotify(t) then V(m) else m;
      ActAllOnToken(Act(s, acts[0]), cur, acts[1..], t, m1, named);
      var rest := Releases(acts[1..], t);
      if acts[0] == DoNotify(t) { assert ([Release] + rest)[1..] == rest; } else { assert [] + rest == rest; }
    }
  }

  /** One dispatch, of `t` or of another thread. */
  lemma DispatchOnToken(s: Sched, turn: Turn, t: nat, m: Semaphore, named: bool)
    requires Between(s) && Holds(s, t, m, named)
    requires s.lists[READY] != [] && s.lists[READY][0] == t ==> !turn.leave.Finish?
    ensures Holds(Dispatch(s, turn.acts, turn.leave), t, SemRun(m, Effective(named, TurnOps(s, turn, t))), named)
  {
    if s.lists[READY] != [] {
      PopKeeps(s);
      var u := s.lists[READY][0];
      Listed(s, NOBODY, u, READY);
      var s1 := ActAll(Popped(s), u, turn.acts);
      var ops := Releases(turn.acts, t);
      var m1 := SemRun(m, ops);
      ActAllOnToken(Popped(s), u, turn.acts, t, m, named);
      BlockKeeps(s1, u, turn.leave);
      LeaveOnToken(s1, u, turn.leave, t, m1, named);
      ReleasesCount(named, turn.acts, t);
      if u == t && turn.leave.NotifyWait? {
        EffectiveJoin(named, ops, [Acquire]);
        SemRunJoin(m, ops, Effective(named, [Acquire]));
        LastAcquire(m1, named);
      } else {
        assert ops + [] == ops;
      }
    }
  }

  lemma LastAcquire(m: Semaphore, named: bool)
    ensures SemRun(m, Effective(named, [Acquire])) == if named && !m.blocked then P(m) else m
  {
    assert [Acquire][1..] == [];
  }

  /** Giving up the processor and being queued again. */
  lemma LeaveOnToken(s: Sched, u: nat, leave: Leave, t: nat, m: Semaphore, named: bool)
    requires Inv(s, u) && Has(s, u) && s.slots[u].state.Running? && Holds(s, t, m, named) && (u == t ==> !leave.Finish?)
    ensures Has(Block(s, u, leave), u)
    ensures Holds(Requeue(Block(s, u, leave), u, !leave.Finish?), t, if u == t && leave.NotifyWait? && named then P(m) else m, named)
    ensures u == t ==> !m.blocked
  {
    BlockKeeps(s, u, leave);
  }

  /** Over every run of dispatches the token and the blocked state of a live thread are those of a semaphore under the
      notifications it got and the waits it made, in order; the waits count only if the thread has an id. */
  lemma {:induction false} RunIsSemaphore(s: Sched, turns: seq<Turn>, t: nat, m: Semaphore, named: bool)
    requires Between(s) && Holds(s, t, m, named) && Lives(s, turns, t)
    ensures Holds(DispatchAll(s, turns), t, SemRun(m, Effective(named, OpsOf(s, turns, t))), named)
    decreases |turns|
  {
    hide Between, Dispatch, Holds, TurnOps;
    if turns != [] {
      DispatchOnToken(s, turns[0], t, m, named);
      var s1 := Dispatch(s, turns[0].acts, turns[0].leave);
      var ops := TurnOps(s, turns[0], t);
      RunIsSemaphore(s1, turns[1..], t, SemRun(m, Effective(named, ops)), named);
      EffectiveJoin(named, ops, OpsOf(s1, turns[1..], t));
      SemRunJoin(m, Effective(named, ops), Effective(named, OpsOf(s1, turns[1..], t)));
    }
  }

  /** No wake-up is lost in any run: a live thread whose last event was a notification does not wait for one. */
  lemma NotifiedIsNotBlocked(s: Sched, turns: seq<Turn>, t: nat)
    requires Between(s) && Has(s, t) && Active(s.slots[t]) && Lives(s, turns, t)
    requires var ops := OpsOf(s, turns, t); ops != [] && ops[|ops| - 1].Release?
    ensures var s' := DispatchAll(s, turns); Has(s', t) && !s'.slots[t].state.OnNotify?
  {
    hide Dispatch, OpsOf, Lives;
    var m, ops := SemaphoreOf(s, t), OpsOf(s, turns, t);
    assert SlotOk(s, NOBODY, t);
    RunIsSemaphore(s, turns, t, m, s.slots[t].named);
    assert ops == ops[..|ops| - 1] + [Release];
    EffectiveJoin(s.slots[t].named, ops[..|ops| - 1], [Release]);
    LastRelease(s.slots[t].named);
    NoLostWakeup(m, Effective(s.slots[t].named, ops[..|ops| - 1]));
  }

  lemma LastRelease(named: bool)
    ensures Effective(named, [Release]) == [Release]
  {
    assert [Release][1..] == [];
  }

  // ----- events and sleeps -----

  /** A signal wakes all that wait and stays set for one more: the next thread to wait passes and clears it, and the one
      after that waits. */
  lemma SignalServesOneMore(s: Sched, t: nat, u: nat, id: nat)
    requires Inv(s, t) && Has(s, t) && s.slots[t].state.Running? && Has(s, u) && u != t && 0 < id <= |s.signaled|
    ensures Members(s, 1 + id)
    ensures var s1 := Signal(s, id);
            |s1.lists| == 2 + |s1.signaled| == 2 + |s.signaled|
            && var s2 := WaitEvent(s1, t, id);
               && Has(s2, t) && s2.slots[t].state.Ready? && s2.lists[1 + id] == [] && !s2.signaled[id - 1]
               && var s3 := WaitEvent(s2, u, id);
                  && Has(s3, u) && s3.slots[u].state == OnEvent(id - 1) && s3.lists[1 + id] == [u] && !s3.signaled[id - 1]
  {
    SignalWakesAll(s, t, id);
    SignalSize(s, id);
    DrainAll(s, t, 1 + id);
    DrainFlag(s, 1 + id, s.signaled[id - 1 := true]);
  }

  /** A thread with an id that sleeps for `ms` is readied by a poll if and only if at least that much time has passed; one
      without does not sleep at all. */
  lemma SleepLasts(s: Sched, t: nat, ms: nat, later: nat)
    requires Inv(s, t) && Has(s, t) && s.slots[t].state.Running?
    ensures Has(Block(s, t, SleepFor(ms)), t)
    ensures var s1 := Requeue(Block(s, t, SleepFor(ms)), t, true).(now := s.now + later);
            Inv(s1, NOBODY) && |s1.lists| > 1 && Members(s1, TIMEOUT) && Inv(Poll(s1), NOBODY)
            && (t in Poll(s1).lists[READY] <==> later >= ms || !s.slots[t].named)
  {
    hide PollFrom, Due;
    BlockKeeps(s, t, SleepFor(ms));
    var s0 := Requeue(Block(s, t, SleepFor(ms)), t, true);
    RequeueKeeps(Block(s, t, SleepFor(ms)), t, true);
    TickKeeps(s0, NOBODY, later);
    var s1 := s0.(now := s.now + later);
    PollExact(s1, 0);
    var c := s1.lists[TIMEOUT];
    assert c[0..] == c;
    DueMembers(s1, c, true);
    SleepersNotReady(s1);
    if s.slots[t].named { assert c[|c| - 1] == t; } else { assert t in s1.lists[READY]; }
  }

  // ----- threads in reused slots -----

  /** The thread's waits count, and no notification is pending: its slot was empty and its memory clear, or it has an id and
      no token. */
  predicate Waits(slot: Slot, grant: Grant)
    requires grant.Context?
  {
    if slot.Absent? then !grant.pending else slot.named && !slot.pending
  }

  /** Which first wait of a new thread blocks. */
  lemma NewThreadWaits(s: Sched, cur: int, func: nat, grant: Grant)
    requires Inv(s, cur) && Runs(s, cur) && |s.slots| > MAIN && FreeSlot(s.slots, MAIN + 1, false) < |s.slots| && grant.Context?
    ensures var i, s' := FreeSlot(s.slots, MAIN + 1, false), CreateThread(s, func, grant);
            && Inv(s', cur) && Has(s', i) && Active(s'.slots[i]) && s'.slots[i].func == func
            && s'.slots[i].named == (s.slots[i].Absent? || s.slots[i].named)
            && SemaphoreOf(s', i) == Semaphore(if s.slots[i].Thread? then s.slots[i].pending else grant.pending, false)
            && var s'' := Wait(s', IdOf(s', i)); Has(s'', i) && (SemaphoreOf(s'', i).blocked <==> Waits(s.slots[i], grant))
  {
    CreateKeeps(s, cur, func, grant);
  }

  /** The same over runs: the thread is created between dispatches, and whatever all threads do until it has made its
      first wait without having been notified, it then waits if and only if its slot was such. */
  lemma FirstWaitOfNewThread(s: Sched, func: nat, grant: Grant, turns: seq<Turn>)
    requires Between(s) && FreeSlot(s.slots, MAIN + 1, false) < |s.slots| && grant.Context?
    ensures Between(CreateThread(s, func, grant))
    ensures var i, s1 := FreeSlot(s.slots, MAIN + 1, false), CreateThread(s, func, grant);
            Lives(s1, turns, i) && OpsOf(s1, turns, i) == [Acquire] ==>
              var s' := DispatchAll(s1, turns);
              Has(s', i) && (s'.slots[i].state.OnNotify? <==> Waits(s.slots[i], grant))
  {
    hide DispatchAll, OpsOf, Lives;
    NewThreadWaits(s, NOBODY, func, grant);
    var i, s1 := FreeSlot(s.slots, MAIN + 1, false), CreateThread(s, func, grant);
    if Lives(s1, turns, i) && OpsOf(s1, turns, i) == [Acquire] {
      var m := SemaphoreOf(s1, i);
      RunIsSemaphore(s1, turns, i, m, s1.slots[i].named);
      LastAcquire(m, s1.slots[i].named);
    }
  }

  /** How a thread comes to have no id: a host creates a thread in an empty slot and destroys it, and a guest creates one
      there. It runs, but whatever it waits for, it is ready again at once. */
  lemma DestroyedSlotHasNoId(s: Sched, cur: int, f: nat, g: nat, leave: Leave)
    requires Inv(s, cur) && Runs(s, cur) && |s.slots| > MAIN
    requires FreeSlot(s.slots, MAIN + 1, true) == FreeSlot(s.slots, MAIN + 1, false) < |s.slots|
    requires s.slots[FreeSlot(s.slots, MAIN + 1, true)].Absent? && !leave.Finish?
    ensures var i, s' := FreeSlot(s.slots, MAIN + 1, true), ActAll(s, cur, [DoCreateHost(f, RESET), DoDestroy(FreeSlot(s.slots, MAIN + 1, true)), DoCreate(g, RESET)]);
            && s'.slots == s.slots[i := Thread(Ready, false, g, false, false)] && s'.lists == s.lists[READY := s.lists[READY] + [i]]
            && |s'.lists| == 2 + |s'.signaled| && Block(s', i, leave) == s'
  {
    var i := FreeSlot(s.slots, MAIN + 1, true);
    var a1, a2, a3 := DoCreateHost(f, RESET), DoDestroy(i), DoCreate(g, RESET);
    ActKeeps(s, cur, a1);
    var s1 := Act(s, a1);
    ActKeeps(s1, cur, a2);
    var s2 := Act(s1, a2);
    assert s2.slots == s.slots[i := Thread(Terminated, false, 0, false, false)];
    SlotFreedAgain(s.slots, s2.slots, MAIN + 1, i);
    ActKeeps(s2, cur, a3);
    var s3 := Act(s2, a3);
    assert s3.slots == s.slots[i := Thread(Ready, false, g, false, false)];
    assert [a1, a2, a3][1..] == [a2, a3] && [a2, a3][1..] == [a3] && [a3][1..] == [];
    assert ActAll(s, cur, [a1, a2, a3]) == ActAll(s1, cur, [a2, a3]) == ActAll(s2, cur, [a3]) == s3;
  }

  lemma {:induction false} SlotFreedAgain(slots: seq<Slot>, slots': seq<Slot>, k: nat, i: nat)
    requires k <= |slots| == |slots'| && i == FreeSlot(slots, k, false) < |slots|
    requires slots' == slots[i := slots'[i]] && slots'[i].Thread? && slots'[i].state.Terminated?
    ensures FreeSlot(slots', k, false) == i
    decreases |slots| - k
  {
    if k < i { SlotFreedAgain(slots, slots', k + 1, i); }
  }

  /** How a slot comes to bring one along: a notification of a thread that has ended stays in its slot, and the next thread
      created there does not block at its first wait. */
  lemma StaleNotification(s: Sched, func: nat)
    requires Between(s)
    requires var i := FreeSlot(s.slots, MAIN + 1, false); i < |s.slots| && s.slots[i].Thread?
    ensures var i, s1 := FreeSlot(s.slots, MAIN + 1, false), Notify(s, FreeSlot(s.slots, MAIN + 1, false));
            && Between(s1) && FreeSlot(s1.slots, MAIN + 1, false) == i && s1.slots[i].Thread? && s1.slots[i].pending
            && var s2 := CreateThread(s1, func, RESET);
               Has(s2, i) && var s3 := Wait(s2, IdOf(s2, i)); Has(s3, i) && !SemaphoreOf(s3, i).blocked
  {
    var i := FreeSlot(s.slots, MAIN + 1, false);
    NotifyKeeps(s, NOBODY, i);
    SameFreeSlot(s.slots, SetPending(s, i, true).slots, MAIN + 1);
    NewThreadWaits(Notify(s, i), NOBODY, func, RESET);
  }

  lemma {:induction false} SameFreeSlot(slots: seq<Slot>, slots': seq<Slot>, i: nat)
    requires i <= |slots| == |slots'|
    requires forall k :: 0 <= k < |slots| ==> (slots'[k].Absent? <==> slots[k].Absent?) && (slots[k].Thread? ==> slots'[k].state == slots[k].state)
    ensures FreeSlot(slots', i, false) == FreeSlot(slots, i, false)
    decreases |slots| - i
  {
    if i < |slots| { SameFreeSlot(slots, slots', i + 1); }
  }
}
