// The scheduler's code: thread slots, event flags and intrusive circular lists, updated in place.
module Scheduler {
  import opened Rings
  import opened Sequences
  import S = Schedule

  /** Every element is a thread node, and no thread is on two lists. */
  ghost predicate ListsApart(lists: seq<seq<nat>>, threads: nat)
  {
    && (forall l, t :: 0 <= l < |lists| && t in lists[l] ==> t < threads)
    && (forall l, m, t :: 0 <= l < |lists| && 0 <= m < |lists| && l != m && t in lists[l] ==> t !in lists[m])
  }

  lemma ApartWithout(lists: seq<seq<nat>>, threads: nat, l: nat, k: nat)
    requires ListsApart(lists, threads) && l < |lists| && k < |lists[l]| && Distinct(lists[l])
    ensures var lists' := lists[l := lists[l][..k] + lists[l][k + 1..]];
            ListsApart(lists', threads) && forall m :: 0 <= m < |lists| ==> lists[l][k] !in lists'[m]
  {
    S.UnlinkFacts(lists[l], k);
    assert lists[l][k] in lists[l];
    var lists' := lists[l := lists[l][..k] + lists[l][k + 1..]];
    forall m, t | 0 <= m < |lists'| && t in lists'[m] ensures t in lists[m] { }
  }

  lemma ApartAppend(lists: seq<seq<nat>>, threads: nat, l: nat, t: nat)
    requires ListsApart(lists, threads) && l < |lists| && t < threads && forall m :: 0 <= m < |lists| ==> t !in lists[m]
    ensures ListsApart(lists[l := lists[l] + [t]], threads)
  {
  }

  class Scheduler {
    const threadCount: nat
    const eventCount: nat
    const threads: array<S.Slot>
    const events: array<bool>
    /** Links of the thread nodes, then of the sentinels of the ready list, the timeout list and each event. */
    const next: array<int>
    const prev: array<int>
    var now: nat
    ghost var lists: seq<seq<nat>>

    ghost predicate Sized()
      reads this
    {
      && threads.Length == threadCount > S.MAIN && events.Length == eventCount && |lists| == 2 + eventCount
      && next.Length == prev.Length == threadCount + 2 + eventCount && next != prev
    }

    /** All lists are well-formed rings over disjoint thread nodes. */
    ghost predicate Linked()
      reads this, next, prev
    {
      && Sized() && ListsApart(lists, threadCount)
      && forall l :: 0 <= l < |lists| ==> Ring(next[..], prev[..], threadCount + l, lists[l])
    }

    ghost function View(): S.Sched
      reads this, threads, events
    {
      S.Sched(threads[..], lists, events[..], now)
    }

    ghost predicate Ok(cur: int)
      reads this, threads, events, next, prev
    {
      Linked() && S.Inv(View(), cur)
    }

    // ----- list primitives -----

    lemma OtherRing(nx: seq<int>, pv: seq<int>, l: nat, m: nat, t: nat, ls: seq<seq<nat>>)
      requires Sized() && ListsApart(ls, threadCount) && |ls| == |lists| && l < |ls| && m < |ls| && l != m && t < threadCount && t !in ls[m]
      requires |nx| == |pv| == next.Length && Ring(nx, pv, threadCount + m, ls[m])
      requires forall x :: 0 <= x < |nx| && x != t && x != threadCount + l && x !in ls[l] ==> next[x] == nx[x] && prev[x] == pv[x]
      ensures Ring(next[..], prev[..], threadCount + m, ls[m])
    {
      hide Ring;
      RingFrame(nx, pv, next[..], prev[..], threadCount + m, ls[m]);
    }

    /** Links thread `t` in front of the sentinel of list `l`. */
    method AddLast(l: nat, t: nat)
      requires Linked() && l < |lists| && t < threadCount && forall m :: 0 <= m < |lists| ==> t !in lists[m]
      modifies next, prev, this`lists
      ensures Linked() && lists == old(lists)[l := old(lists)[l] + [t]]
    {
      hide Ring;
      ghost var nx, pv, ls := next[..], prev[..], lists;
      var head := threadCount + l;
      Ends(nx, pv, head, ls[l]);
      next[t] := head;
      prev[t] := prev[head];
      next[prev[head]] := t;
      prev[head] := t;
      Added(nx, pv, next[..], prev[..], head, ls[l], t);
      ApartAppend(ls, threadCount, l, t);
      lists := ls[l := ls[l] + [t]];
      forall m | 0 <= m < |lists| ensures Ring(next[..], prev[..], threadCount + m, lists[m]) {
        if m != l { OtherRing(nx, pv, l, m, t, ls); }
      }
    }

    /** Unlinks element `k` of list `l`. */
    method Remove(l: nat, ghost k: nat, t: nat)
      requires Linked() && l < |lists| && k < |lists[l]| && lists[l][k] == t
      modifies next, prev, this`lists
      ensures Linked() && lists == old(lists)[l := old(lists)[l][..k] + old(lists)[l][k + 1..]]
      ensures forall m :: 0 <= m < |lists| ==> t !in lists[m]
    {
      hide Ring;
      ghost var nx, pv, ls, head := next[..], prev[..], lists, threadCount + l;
      assert t in ls[l];
      Ends(nx, pv, head, ls[l]);
      Neighbours(nx, pv, head, ls[l], k);
      next[prev[t]] := next[t];
      prev[next[t]] := prev[t];
      next[t], prev[t] := NIL, NIL;
      Removed(nx, pv, next[..], prev[..], head, ls[l], k, pv[t], nx[t]);
      RingDistinct(nx, pv, head, ls[l]);
      ApartWithout(ls, threadCount, l, k);
      lists := ls[l := ls[l][..k] + ls[l][k + 1..]];
      forall m | 0 <= m < |lists| ensures Ring(next[..], prev[..], threadCount + m, lists[m]) {
        if m != l { OtherRing(nx, pv, l, m, t, ls); }
      }
    }

    /** First node behind the sentinel of list `l`, or the sentinel. */
    lemma First(l: nat)
      requires Linked() && l < |lists|
      ensures next[threadCount + l] == if lists[l] == [] then threadCount + l else lists[l][0]
      ensures forall k :: 0 <= k < |lists[l]| ==> lists[l][k] < threadCount
    {
      hide Ring;
      Ends(next[..], prev[..], threadCount + l, lists[l]);
      assert forall k :: 0 <= k < |lists[l]| ==> lists[l][k] in lists[l];
    }

    lemma After(l: nat, k: nat)
      requires Linked() && l < |lists| && k < |lists[l]|
      ensures lists[l][k] < threadCount
      ensures next[lists[l][k]] == if k + 1 < |lists[l]| then lists[l][k + 1] else threadCount + l
    {
      hide Ring;
      Neighbours(next[..], prev[..], threadCount + l, lists[l], k);
      assert lists[l][k] in lists[l];
    }

    // ----- state changes -----

    method SetState(t: nat, st: S.State)
      requires t < threads.Length && threads[t].Thread?
      modifies threads
      ensures threads[..] == old(threads[..])[t := old(threads[t]).(state := st)]
    {
      threads[t] := threads[t].(state := st);
    }

    /** Element `k` of list `l` becomes ready. */
    method MoveToReady(l: nat, ghost k: nat, t: nat)
      requires Linked() && 0 < l < |lists| && k < |lists[l]| && lists[l][k] == t < threads.Length && threads[t].Thread?
      modifies threads, next, prev, this`lists
      ensures Linked() && View() == S.Move(old(View()), l, k)
      ensures lists[l] == old(lists[l][..k] + lists[l][k + 1..])
    {
      hide Ring, ListsApart;
      assert t < threadCount by { TIn(l, k); }
      Remove(l, k, t);
      SetState(t, S.Ready);
      AddLast(S.READY, t);
    }

    lemma TIn(l: nat, k: nat)
      requires Linked() && l < |lists| && k < |lists[l]|
      ensures lists[l][k] < threadCount
    {
      assert lists[l][k] in lists[l];
    }

    method SignalEvent(id: nat, ghost cur: int)
      requires Ok(cur) && S.Runs(View(), cur) && (0 < id <= eventCount ==> S.Members(View(), 1 + id))
      modifies threads, events, next, prev, this`lists
      ensures Ok(cur) && S.Runs(View(), cur) && View() == S.Signal(old(View()), id)
    {
      hide Ring, ListsApart, S.Inv, S.Drain, S.Move, S.Runs;
      S.SignalWakesAll(View(), cur, id);
      if id == 0 || id > eventCount { return; }
      events[id - 1] := true;
      var l, wq := 1 + id, threadCount + 1 + id;
      ghost var goal := S.Drain(View(), l);
      First(l);
      var node := next[wq];
      while node != wq
        invariant Linked() && S.Members(View(), l) && S.Drain(View(), l) == goal
        invariant node == if lists[l] == [] then wq else lists[l][0]
        decreases |lists[l]|
      {
        First(l);
        After(l, 0);
        var nextNode := next[node];
        Drained(View(), l);
        ghost var c := lists[l];
        assert c[..0] + c[1..] == c[1..];
        MoveToReady(l, 0, node);
        node := nextNode;
      }
      Drained(View(), l);
    }

    lemma Drained(s: S.Sched, l: nat)
      requires 0 < l < |s.lists| && S.Members(s, l)
      ensures s.lists[l] == [] ==> S.Drain(s, l) == s
      ensures s.lists[l] != [] ==> S.Has(s, s.lists[l][0]) && S.Members(S.Move(s, l, 0), l) && S.Drain(s, l) == S.Drain(S.Move(s, l, 0), l)
      ensures s.lists[l] != [] ==> |S.Move(s, l, 0).lists[l]| < |s.lists[l]|
    {
      if s.lists[l] != [] {
        assert s.lists[l][0] in s.lists[l];
        S.MovedMembers(s, l, 0, l);
      }
    }

    // ----- waiting and waking -----

    method WaitEvent(t: int, id: nat)
      requires Linked() && (S.Has(View(), t) ==> forall m :: 0 <= m < |lists| ==> t !in lists[m])
      modifies threads, events, next, prev, this`lists
      ensures Linked() && View() == S.WaitEvent(old(View()), t, id)
    {
      hide Ring, ListsApart;
      if t < 0 || t >= threadCount || id == 0 || id > eventCount { return; }
      if threads[t].Absent? { return; }
      if events[id - 1] {
        events[id - 1] := false;
        SetState(t, S.Ready);
      } else {
        SetState(t, S.OnEvent(id - 1));
        AddLast(1 + id, t);
      }
    }

    method ThreadWait(t: int)
      requires Sized()
      modifies threads
      ensures View() == S.Wait(old(View()), t)
    {
      if t < 0 || t >= threadCount { return; }
      if threads[t].Absent? { return; }
      if threads[t].pending {
        threads[t] := threads[t].(pending := false);
        SetState(t, S.Ready);
      } else {
        SetState(t, S.OnNotify);
      }
    }

    method ThreadNotify(t: int)
      requires Linked() && (S.Has(View(), t) && threads[t].state.OnNotify? ==> forall m :: 0 <= m < |lists| ==> t !in lists[m])
      modifies threads, next, prev, this`lists
      ensures Linked() && View() == S.Notify(old(View()), t)
    {
      hide Ring, ListsApart;
      if t < 0 || t >= threadCount { return; }
      if threads[t].Absent? { return; }
      if threads[t].state.OnNotify? {
        SetState(t, S.Ready);
        AddLast(S.READY, t);
      } else {
        threads[t] := threads[t].(pending := true);
      }
    }

    method ThreadSleep(t: int, ms: nat)
      requires Linked() && (S.Has(View(), t) ==> forall m :: 0 <= m < |lists| ==> t !in lists[m])
      modifies threads, next, prev, this`lists
      ensures Linked() && View() == S.Sleep(old(View()), t, ms)
    {
      hide Ring, ListsApart;
      if t < 0 || t >= threadCount { return; }
      if threads[t].Absent? { return; }
      SetState(t, S.Asleep(now + ms));
      AddLast(S.TIMEOUT, t);
    }

    // ----- timers -----

    /** Readies every expired sleeper, in list order. */
    method PollSleeps()
      requires Ok(S.NOBODY) && S.Members(View(), S.TIMEOUT)
      modifies threads, next, prev, this`lists
      ensures Linked() && View() == S.Poll(old(View()))
    {
      hide Ring, ListsApart, S.Inv, S.PollFrom, S.Move;
      ghost var goal := S.Poll(View());
      ghost var k := 0;
      var head := threadCount + S.TIMEOUT;
      First(S.TIMEOUT);
      var node := next[head];
      while node != head
        invariant Linked() && k <= |lists[S.TIMEOUT]| && S.Members(View(), S.TIMEOUT) && S.PollFrom(View(), k) == goal
        invariant node == if k == |lists[S.TIMEOUT]| then head else lists[S.TIMEOUT][k]
        decreases |lists[S.TIMEOUT]| - k
      {
        After(S.TIMEOUT, k);
        Polled(View(), k);
        var nextNode := next[node];
        ghost var c := lists[S.TIMEOUT];
        assert |c[..k] + c[k + 1..]| == |c| - 1 && (k + 1 < |c| ==> (c[..k] + c[k + 1..])[k] == c[k + 1]);
        SleeperState(k, node);
        if threads[node].state.Asleep? && now >= threads[node].state.wake {
          MoveToReady(S.TIMEOUT, k, node);
        } else {
          k := k + 1;
        }
        node := nextNode;
      }
      First(S.TIMEOUT);
      Polled(View(), k);
    }

    lemma SleeperState(k: nat, node: nat)
      requires Linked() && k < |lists[S.TIMEOUT]| && lists[S.TIMEOUT][k] == node && S.Members(View(), S.TIMEOUT)
      ensures node < threadCount && threads[node].Thread?
    {
      assert node in lists[S.TIMEOUT];
    }

    lemma Polled(s: S.Sched, k: nat)
      requires |s.lists| > 1 && S.Members(s, S.TIMEOUT)
      ensures k >= |s.lists[S.TIMEOUT]| ==> S.PollFrom(s, k) == s
      ensures k < |s.lists[S.TIMEOUT]| ==>
                var t := s.lists[S.TIMEOUT][k];
                && S.Has(s, t)
                && (if S.Expired(s, t) then S.Members(S.Move(s, S.TIMEOUT, k), S.TIMEOUT) && S.PollFrom(s, k) == S.PollFrom(S.Move(s, S.TIMEOUT, k), k)
                    else S.PollFrom(s, k) == S.PollFrom(s, k + 1))
    {
      if k < |s.lists[S.TIMEOUT]| {
        assert s.lists[S.TIMEOUT][k] in s.lists[S.TIMEOUT];
        S.MovedMembers(s, S.TIMEOUT, k, S.TIMEOUT);
      }
    }

    /** The least remaining sleep. */
    method ComputeMinSleepTimeout() returns (min: nat)
      requires Ok(S.NOBODY) && S.Members(View(), S.TIMEOUT)
      requires forall t :: t in lists[S.TIMEOUT] ==> S.Remaining(View(), t) <= S.FOREVER
      ensures S.IsMinTimeout(View(), min)
    {
      hide Ring, ListsApart, S.Inv;
      min := S.FOREVER;
      ghost var k := 0;
      var head := threadCount + S.TIMEOUT;
      First(S.TIMEOUT);
      var node := next[head];
      while node != head
        invariant k <= |lists[S.TIMEOUT]| && min <= S.FOREVER
        invariant node == if k == |lists[S.TIMEOUT]| then head else lists[S.TIMEOUT][k]
        invariant forall i :: 0 <= i < k ==> min <= S.Remaining(View(), lists[S.TIMEOUT][i])
        invariant if k == 0 then min == S.FOREVER else exists i :: 0 <= i < k && min == S.Remaining(View(), lists[S.TIMEOUT][i])
        decreases |lists[S.TIMEOUT]| - k
      {
        After(S.TIMEOUT, k);
        SleeperState(k, node);
        assert lists[S.TIMEOUT][k] in lists[S.TIMEOUT];
        var st := threads[node].state;
        var rem := if st.Asleep? && st.wake > now then st.wake - now else 0;
        assert rem == S.Remaining(View(), lists[S.TIMEOUT][k]);
        if rem < min { min := rem; }
        node := next[node];
        k := k + 1;
      }
      First(S.TIMEOUT);
    }

    // ----- threads -----

    /** `grant` is the pool's answer to the request for the main thread's context. */
    constructor (threadCount: nat, eventCount: nat, grant: bool)
      requires threadCount > S.MAIN
      ensures Ok(S.NOBODY) && now == 0
      ensures View().slots == seq(threadCount, _ => S.Absent)[S.MAIN := if grant then S.IDLE else S.Absent] && View().signaled == seq(eventCount, _ => false)
      ensures View().lists == seq(2 + eventCount, _ => [])
      ensures fresh(threads) && fresh(events) && fresh(next) && fresh(prev)
    {
      this.threadCount, this.eventCount := threadCount, eventCount;
      threads := new S.Slot[threadCount](i => if i == S.MAIN && grant then S.IDLE else S.Absent);
      events := new bool[eventCount](_ => false);
      next := new int[threadCount + 2 + eventCount](i => i);
      prev := new int[threadCount + 2 + eventCount](i => i);
      now := 0;
      lists := seq(2 + eventCount, _ => []);
      new;
      hide Ring, ListsApart, S.Inv;
      assert View().slots == seq(threadCount, _ => S.Absent)[S.MAIN := if grant then S.IDLE else S.Absent];
      EmptyLists(View(), threadCount);
      forall l | 0 <= l < |lists| ensures Ring(next[..], prev[..], threadCount + l, lists[l]) {
        EmptyRing(next[..], prev[..], threadCount + l);
      }
    }

    /** The first slot from `MAIN + 1` on that may be taken. */
    method FindSlot(host: bool) returns (i: nat)
      requires Sized()
      ensures i == S.FreeSlot(threads[..], S.MAIN + 1, host)
    {
      i := S.MAIN + 1;
      while i < threadCount
        invariant S.MAIN + 1 <= i <= threadCount
        invariant S.FreeSlot(threads[..], S.MAIN + 1, host) == S.FreeSlot(threads[..], i, host)
      {
        if threads[i].Absent? { return; }
        if threads[i].state.Terminated? && !(host && threads[i].owned) { return; }
        i := i + 1;
      }
    }

    /** Starts a guest thread, unless no slot is free or the pool, whose answer is `grant`, refuses. It returns the id in the
        thread's context, which is 0 also for a started thread if its slot was that of a destroyed host thread. */
    method CreateThread(func: nat, grant: S.Grant, ghost cur: int) returns (id: nat)
      requires Ok(cur) && S.Runs(View(), cur)
      modifies threads, next, prev, this`lists
      ensures Linked() && View() == S.CreateThread(old(View()), func, grant)
      ensures var i := S.FreeSlot(old(threads[..]), S.MAIN + 1, false);
              id == if S.Refused(old(View()), i, grant) || (old(threads[..])[i].Thread? && !old(threads[..])[i].named) then 0 else i + 1
    {
      hide Ring, ListsApart, S.Inv;
      var i := FindSlot(false);
      if i == threadCount { return 0; }
      OffLists(i, cur);
      if threads[i].Absent? {
        if grant.Refusal? { return 0; }
        threads[i] := S.Thread(S.Ready, grant.pending, func, grant.owned, true);
      }
      threads[i] := threads[i].(state := S.Ready, func := func);
      AddLast(S.READY, i);
      return if threads[i].named then i + 1 else 0;
    }

    lemma OffLists(t: nat, cur: int)
      requires Ok(cur) && t < threadCount && S.Placed(View(), cur, t) == S.NOBODY
      ensures forall m :: 0 <= m < |lists| ==> t !in lists[m]
    {
      forall m | 0 <= m < |lists| ensures t !in lists[m] { S.Listed(View(), cur, t, m); }
    }

    method CreateHostThread(func: nat, grant: S.Grant) returns (id: nat)
      requires Sized()
      modifies threads
      ensures View() == S.CreateHostThread(old(View()), func, grant)
      ensures var i := S.FreeSlot(old(threads[..]), S.MAIN + 1, true); id == if S.Refused(old(View()), i, grant) then 0 else i + 1
    {
      var i := FindSlot(true);
      if i == threadCount { return 0; }
      if threads[i].Absent? && grant.Refusal? { return 0; }
      threads[i] := S.Thread(S.Created, false, func, true, true);
      return i + 1;
    }

    method StartThread(t: int, ghost cur: int)
      requires Ok(cur) && S.Runs(View(), cur)
      modifies threads, next, prev, this`lists
      ensures Linked() && View() == S.StartThread(old(View()), t)
    {
      hide Ring, ListsApart, S.Inv;
      if t < 0 || t >= threadCount { return; }
      if threads[t].Absent? { return; }
      if !threads[t].state.Created? { return; }
      OffLists(t, cur);
      SetState(t, S.Ready);
      AddLast(S.READY, t);
    }

    method DestroyHostThread(t: int) returns (ok: bool)
      requires Sized()
      modifies threads
      ensures View() == S.DestroyHostThread(old(View()), t)
    {
      if t <= S.MAIN || t >= threadCount { return false; }
      if threads[t].Absent? { return false; }
      if threads[t].owned && (threads[t].state.Terminated? || threads[t].state.Created?) {
        threads[t] := S.Thread(S.Terminated, false, 0, false, false);
        return true;
      }
      return false;
    }

    // ----- dispatching -----

    method Perform(a: S.Action, ghost cur: int)
      requires Ok(cur) && S.Runs(View(), cur) && forall l :: 0 <= l < |lists| ==> S.Members(View(), l)
      modifies threads, events, next, prev, this`lists, this`now
      ensures Ok(cur) && S.Runs(View(), cur) && View() == S.Act(old(View()), a)
    {
      hide Ring, ListsApart, S.Inv, S.CreateThread, S.CreateHostThread, S.Signal, S.Members;
      S.ActKeeps(View(), cur, a);
      match a {
        case DoCreate(f, grant) => var id := CreateThread(f, grant, cur);
        case DoCreateHost(f, grant) => var id := CreateHostThread(f, grant);
        case DoStart(t) => StartThread(t, cur);
        case DoDestroy(t) => var ok := DestroyHostThread(t);
        case DoSignal(id) => SignalEvent(id, cur);
        case DoNotify(t) =>
          if 0 <= t < threadCount && threads[t].Thread? && threads[t].state.OnNotify? { OffLists(t, cur); }
          ThreadNotify(t);
        case DoTick(ms) => now := now + ms;
      }
    }

    method PerformAll(acts: seq<S.Action>, ghost cur: int)
      requires Ok(cur) && S.Runs(View(), cur)
      modifies threads, events, next, prev, this`lists, this`now
      ensures Ok(cur) && S.Runs(View(), cur) && View() == S.ActAll(old(View()), cur, acts)
    {
      hide Ring, ListsApart, S.Inv, S.Act, S.Members, S.Runs;
      ghost var goal := S.ActAll(View(), cur, acts);
      assert acts[0..] == acts;
      for n := 0 to |acts|
        invariant Ok(cur) && S.Runs(View(), cur) && Sized() && S.ActAll(View(), cur, acts[n..]) == goal
      {
        S.ActKeeps(View(), cur, acts[n]);
        assert acts[n..][0] == acts[n] && acts[n..][1..] == acts[n + 1..];
        Perform(acts[n], cur);
      }
    }

    /** The running thread gives up the processor. */
    method LeaveBy(t: nat, w: S.Leave)
      requires Ok(t) && t < threadCount && threads[t].Thread? && threads[t].state.Running?
      modifies threads, events, next, prev, this`lists
      ensures Linked() && View() == S.Block(old(View()), t, w)
    {
      hide Ring, ListsApart, S.Inv;
      OffLists(t, t);
      var self := if threads[t].named then t else S.NOBODY;
      match w {
        case EventWait(id) => WaitEvent(self, id);
        case NotifyWait => ThreadWait(self);
        case SleepFor(ms) => ThreadSleep(self, ms);
        case _ =>
      }
    }

    method PopReady() returns (t: int)
      requires Ok(S.NOBODY)
      modifies threads, next, prev, this`lists
      ensures t == S.NOBODY ==> old(lists)[S.READY] == [] && View() == old(View()) && Ok(S.NOBODY)
      ensures t != S.NOBODY ==>
                && old(lists)[S.READY] != [] && t == old(lists)[S.READY][0] && S.Has(old(View()), t)
                && Ok(t) && View() == S.Popped(old(View()))
    {
      hide Ring, ListsApart, S.Inv;
      First(S.READY);
      var node := next[threadCount + S.READY];
      if node == threadCount + S.READY { return S.NOBODY; }
      S.PopKeeps(View());
      t := node;
      Remove(S.READY, 0, t);
      SetState(t, S.Running);
    }

    /** One dispatch. */
    method Step(acts: seq<S.Action>, w: S.Leave)
      requires Ok(S.NOBODY)
      modifies threads, events, next, prev, this`lists, this`now
      ensures Ok(S.NOBODY) && View() == S.Dispatch(old(View()), acts, w)
    {
      hide Ring, ListsApart, S.Inv, S.ActAll, S.Block, S.Requeue, S.Popped;
      ghost var s := View();
      var t := PopReady();
      if t == S.NOBODY { return; }
      PoppedRuns(s);
      PerformAll(acts, t);
      ghost var s1 := View();
      S.BlockKeeps(s1, t, w);
      S.FinishOffList(s1, t, w);
      LeaveBy(t, w);
      S.RequeueKeeps(View(), t, !w.Finish?);
      RequeueThread(t, !w.Finish?);
    }

    lemma PoppedRuns(s: S.Sched)
      requires |s.lists| > 0 && s.lists[S.READY] != [] && S.Has(s, s.lists[S.READY][0])
      ensures S.Runs(S.Popped(s), s.lists[S.READY][0])
    {
    }

    method RequeueThread(t: nat, yielded: bool)
      requires Linked() && S.Inv(View(), t) && S.Has(View(), t)
      modifies threads, next, prev, this`lists
      ensures Linked() && View() == S.Requeue(old(View()), t, yielded)
    {
      hide Ring, ListsApart, S.Inv;
      if threads[t].state.Running? || threads[t].state.Ready? { OffLists(t, t); }
      if yielded {
        if threads[t].state.Running? { SetState(t, S.Ready); }
        if threads[t].state.Ready? {
          AddLast(S.READY, t);
        }
      } else {
        SetState(t, S.Terminated);
      }
    }

    /** SetupMainThread: the main thread, which must be on no list, starts ready; 0 without a context for it. */
    method SetupMainThread(func: nat) returns (id: nat)
      requires Ok(S.NOBODY) && S.Placed(View(), S.NOBODY, S.MAIN) == S.NOBODY
      modifies threads, next, prev, this`lists
      ensures Ok(S.NOBODY) && (id == 0 <==> old(threads[S.MAIN]).Absent?)
      ensures id == 0 ==> View() == old(View())
      ensures id != 0 ==>
                && id == S.MAIN + 1 && threads[S.MAIN] == S.Thread(S.Ready, false, func, false, true) && S.MAIN in lists[S.READY]
                && View().slots[1..] == old(View()).slots[1..] && lists == old(lists)[S.READY := old(lists)[S.READY] + [S.MAIN]]
    {
      hide Ring, ListsApart, S.Inv;
      if threads[S.MAIN].Absent? { return 0; }
      OffLists(S.MAIN, S.NOBODY);
      S.FilledKeeps(View(), S.NOBODY, S.MAIN, S.Thread(S.Ready, false, func, false, true));
      threads[S.MAIN] := S.Thread(S.Ready, false, func, false, true);
      AddLast(S.READY, S.MAIN);
      assert lists[S.READY][|lists[S.READY]| - 1] == S.MAIN;
      id := S.MAIN + 1;
    }

    method AnyActive() returns (any: bool)
      requires Sized()
      ensures any == S.AnyActive(View())
    {
      for i := 0 to threadCount
        invariant forall t :: 0 <= t < i ==> !S.Active(threads[t])
      {
        if threads[i].Thread? && !threads[i].state.Terminated? && !threads[i].state.Created? {
          assert S.Active(View().slots[i]);
          return true;
        }
      }
      any := false;
    }

    /** The run loop without lock, over the rounds of `script`. */
    method RunInternal(script: seq<S.Round>) returns (res: S.RunResult)
      requires Ok(S.NOBODY) && S.Between(View())
      modifies threads, events, next, prev, this`lists, this`now
      ensures Ok(S.NOBODY) && (res, View()) == S.RunRounds(old(View()), script)
      ensures res == S.AllDone ==> forall l :: 0 <= l < |lists| ==> lists[l] == []
    {
      hide Ring, ListsApart, S.Inv, S.RunRound, Linked;
      ghost var goal := S.RunRounds(View(), script);
      S.DoneMeansIdle(View(), script);
      assert script[0..] == script;
      for n := 0 to |script|
        invariant Ok(S.NOBODY) && S.Between(View()) && S.RunRounds(View(), script[n..]) == goal
      {
        LinkedIsSized();
        assert script[n..][0] == script[n] && script[n..][1..] == script[n + 1..];
        var any := AnyActive();
        if !any { return S.AllDone; }
        var ready := HasReadyThread();
        Round(script[n]);
        if ready && script[n].leave == S.Finish(false) { return S.Failed; }
      }
      res := S.StillRunning;
    }

    lemma LinkedIsSized()
      requires Linked()
      ensures Sized()
    {
    }

    method HasReadyThread() returns (ready: bool)
      requires Ok(S.NOBODY)
      ensures ready == (lists[S.READY] != [])
    {
      hide Ring, ListsApart, S.Inv;
      First(S.READY);
      ready := next[threadCount + S.READY] != threadCount + S.READY;
    }

    method Round(r: S.Round)
      requires Ok(S.NOBODY)
      modifies threads, events, next, prev, this`lists, this`now
      ensures Ok(S.NOBODY) && S.Between(View()) && View() == S.RunRound(old(View()), r)
    {
      hide Ring, ListsApart, S.Inv, S.Dispatch, S.Poll;
      var ready := HasReadyThread();
      if ready {
        Step(r.acts, r.leave);
      } else {
        Sweep();
        ready := HasReadyThread();
        if !ready {
          S.TickKeeps(View(), S.NOBODY, r.waited);
          now := now + r.waited;
          Sweep();
        }
      }
    }

    /** A poll between dispatches. */
    method Sweep()
      requires Ok(S.NOBODY)
      modifies threads, next, prev, this`lists
      ensures Ok(S.NOBODY) && S.Members(old(View()), S.TIMEOUT) && View() == S.Poll(old(View()))
    {
      hide Ring, ListsApart, S.Inv, S.PollFrom;
      S.TimeoutMembers(View());
      S.PollExact(View(), 0);
      PollSleeps();
    }
  }

  lemma EmptyRing(nx: seq<int>, pv: seq<int>, head: nat)
    requires |nx| == |pv| && head < |nx| && nx[head] == head == pv[head]
    ensures Ring(nx, pv, head, [])
  {
    assert [head] + [] == [head];
  }

  lemma EmptyLists(s: S.Sched, threads: nat)
    requires |s.lists| == 2 + |s.signaled| && (forall l :: 0 <= l < |s.lists| ==> s.lists[l] == [])
    requires forall t :: 0 <= t < |s.slots| ==> s.slots[t].Absent? || s.slots[t] == S.IDLE
    ensures S.Inv(s, S.NOBODY) && ListsApart(s.lists, threads)
  {
    forall l | 0 <= l < |s.lists| ensures S.ListOk(s, S.NOBODY, l) { }
    forall t | 0 <= t < |s.slots| ensures S.SlotOk(s, S.NOBODY, t) { }
  }

  lemma RingDistinct(nx: seq<int>, pv: seq<int>, head: nat, items: seq<nat>)
    requires |nx| == |pv| && Ring(nx, pv, head, items)
    ensures Distinct(items)
  {
    var c := [head] + items;
    assert forall i :: 0 <= i < |items| ==> items[i] == c[i + 1];
  }
}