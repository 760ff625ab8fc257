// Whole runs of the scheduler's loop, and what its steps do to the thread concerned, told without the functions that the
// loop is made of.
module Rounds {
  import opened Sequences
  import opened Schedule

  // ----- how the loop ends -----

  /** Some thread is neither waiting to be started nor ended. */
  predicate Busy(s: Sched)
  {
    exists t :: 0 <= t < |s.slots| && s.slots[t].Thread? &&
      var st := s.slots[t].state; st.Ready? || st.Running? || st.OnEvent? || st.Asleep? || st.OnNotify?
  }

  /** After the first `k` rounds, whatever they were. */
  function After(s: Sched, script: seq<Round>, k: nat): (s': Sched)
    requires Between(s) && k <= |script|
    ensures Between(s')
    decreases k
  {
    if k == 0 then s else After(RunRound(s, script[0]), script[1..], k - 1)
  }

  /** Round `k` dispatches a thread, and that ends with an error. */
  predicate Fails(s: Sched, script: seq<Round>, k: nat)
    requires Between(s) && k < |script|
  {
    After(s, script, k).lists[0] != [] && script[k].leave == Finish(false)
  }

  /** Up to round `k` there always was a thread to go on with, and none ended with an error before. */
  predicate GoesOn(s: Sched, script: seq<Round>, k: nat)
    requires Between(s) && k <= |script|
  {
    forall j :: 0 <= j < k ==> Busy(After(s, script, j)) && !Fails(s, script, j)
  }

  lemma ActiveIsBusy(s: Sched)
    ensures AnyActive(s) <==> Busy(s)
  {
    forall t | 0 <= t < |s.slots| && s.slots[t].Thread? ensures Active(s.slots[t]) <==>
      var st := s.slots[t].state; st.Ready? || st.Running? || st.OnEvent? || st.Asleep? || st.OnNotify?
    {
      match s.slots[t].state { case _ => }
    }
  }

  lemma GoesOnNext(s: Sched, script: seq<Round>, k: nat)
    requires Between(s) && 0 < k <= |script|
    ensures GoesOn(s, script, k) <==> Busy(s) && !Fails(s, script, 0) && GoesOn(RunRound(s, script[0]), script[1..], k - 1)
  {
    hide RunRound, Busy;
    var s1, rest := RunRound(s, script[0]), script[1..];
    assert After(s, script, 0) == s;
    assert forall j :: 0 < j < k ==> After(s, script, j) == After(s1, rest, j - 1) && script[j] == rest[j - 1];
    assert forall j :: 0 < j < k ==> (Fails(s, script, j) <==> Fails(s1, rest, j - 1));
    if GoesOn(s, script, k) {
      assert Busy(After(s, script, 0)) && !Fails(s, script, 0);
      forall j | 0 <= j < k - 1 ensures Busy(After(s1, rest, j)) && !Fails(s1, rest, j) {
        assert Busy(After(s, script, j + 1)) && !Fails(s, script, j + 1);
      }
    }
  }

  /** Where the loop stops: at the first round that fails, behind it; or in front of the first round that finds nobody busy. */
  predicate StopsBad(s: Sched, script: seq<Round>, k: nat)
    requires Between(s)
  {
    k < |script| && GoesOn(s, script, k) && Busy(After(s, script, k)) && Fails(s, script, k)
  }

  predicate StopsWell(s: Sched, script: seq<Round>, k: nat)
    requires Between(s)
  {
    k < |script| && GoesOn(s, script, k) && !Busy(After(s, script, k))
  }

  lemma {:induction false} StopsNext(s: Sched, script: seq<Round>, k: nat)
    requires Between(s) && 0 < k && script != []
    ensures var s1, rest := RunRound(s, script[0]), script[1..];
            && (StopsBad(s, script, k) <==> Busy(s) && !Fails(s, script, 0) && StopsBad(s1, rest, k - 1))
            && (StopsWell(s, script, k) <==> Busy(s) && !Fails(s, script, 0) && StopsWell(s1, rest, k - 1))
  {
    hide RunRound, Busy, GoesOn;
    if k < |script| {
      GoesOnNext(s, script, k);
      assert After(s, script, k) == After(RunRound(s, script[0]), script[1..], k - 1);
    }
  }

  lemma FirstStop(s: Sched, script: seq<Round>)
    requires Between(s) && script != []
    ensures StopsBad(s, script, 0) <==> Busy(s) && s.lists[0] != [] && script[0].leave == Finish(false)
    ensures StopsWell(s, script, 0) <==> !Busy(s)
    ensures After(s, script, 1) == RunRound(s, script[0])
  {
    hide RunRound, Busy;
    assert After(s, script, 1) == After(RunRound(s, script[0]), script[1..], 0);
  }

  /** The loop fails if and only if some round that it reaches with a busy thread ends with an error, and it ends well if and
      only if it reaches a state without a busy thread; the state it leaves is that after exactly those rounds. */
  lemma {:induction false} LoopExact(s: Sched, script: seq<Round>)
    requires Between(s)
    ensures var r := RunRounds(s, script);
            && (r.0 == Failed <==> exists k: nat :: StopsBad(s, script, k))
            && (r.0 == AllDone <==> exists k: nat :: StopsWell(s, script, k))
            && (forall k: nat :: StopsBad(s, script, k) ==> r.1 == After(s, script, k + 1))
            && (forall k: nat :: StopsWell(s, script, k) ==> r.1 == After(s, script, k))
            && (r.0 == StillRunning ==> r.1 == After(s, script, |script|))
    decreases |script|
  {
    hide RunRound, Busy, GoesOn, Between, StopsBad, StopsWell, AnyActive, Fails;
    if script == [] {
      NoStops(s);
    } else {
      ActiveIsBusy(s);
      FirstStop(s, script);
      var s1, rest := RunRound(s, script[0]), script[1..];
      LoopExact(s1, rest);
      forall k: nat | k > 0 ensures
        && (StopsBad(s, script, k) <==> Busy(s) && !Fails(s, script, 0) && StopsBad(s1, rest, k - 1))
        && (StopsWell(s, script, k) <==> Busy(s) && !Fails(s, script, 0) && StopsWell(s1, rest, k - 1))
      {
        StopsNext(s, script, k);
      }
      FailsFirst(s, script);
      Bounded(s, script);
      if k: nat :| StopsBad(s1, rest, k) { assert k + 1 > 0 && (k + 1) - 1 == k; assert StopsBad(s, script, k + 1) <==> Busy(s) && !Fails(s, script, 0); }
      if k: nat :| StopsWell(s1, rest, k) { assert k + 1 > 0 && (k + 1) - 1 == k; assert StopsWell(s, script, k + 1) <==> Busy(s) && !Fails(s, script, 0); }
      forall k: nat | k < |script| && StopsBad(s, script, k) ensures RunRounds(s, script).1 == After(s, script, k + 1) {
        if k > 0 { assert After(s, script, k + 1) == After(s1, rest, k); }
      }
      forall k: nat | k < |script| && StopsWell(s, script, k) ensures RunRounds(s, script).1 == After(s, script, k) {
        if k > 0 { assert After(s, script, k) == After(s1, rest, k - 1); }
      }
      assert After(s, script, |script|) == After(s1, rest, |rest|);
    }
  }

  lemma FailsFirst(s: Sched, script: seq<Round>)
    requires Between(s) && script != []
    ensures Fails(s, script, 0) <==> s.lists[0] != [] && script[0].leave == Finish(false)
  {
  }

  lemma Bounded(s: Sched, script: seq<Round>)
    requires Between(s)
    ensures forall k: nat :: StopsBad(s, script, k) || StopsWell(s, script, k) ==> k < |script|
  {
  }

  lemma NoStops(s: Sched)
    requires Between(s)
    ensures forall k: nat :: !StopsBad(s, [], k) && !StopsWell(s, [], k)
  {
  }

  // ----- a round without a ready thread -----

  /** Thread `t` sleeps and asked to be woken by `now`. */
  predicate TimeHasCome(s: Sched, t: int, now: nat) { Has(s, t) && s.slots[t].state.Asleep? && s.slots[t].state.wake <= now }

  predicate Sleeps(s: Sched, t: nat) { Has(s, t) && s.slots[t].state.Asleep? }

  lemma SleepersSleep(s: Sched)
    requires Inv(s, NOBODY)
    ensures |s.lists| >= 2 && Members(s, TIMEOUT) && forall t :: t in s.lists[1] ==> Sleeps(s, t) && t !in s.lists[0]
  {
    SleepersPlaced(s);
    SleepersNotReady(s);
  }

  /** The clock stands still if somebody's time has come, and else moves on by the time waited; then exactly those whose time
      has come are ready, the others sleep on, and nothing else changes. */
  lemma IdleRound(s: Sched, r: Round)
    requires Between(s) && s.lists[0] == []
    ensures |s.lists| >= 2 && forall t :: t in s.lists[1] ==> Sleeps(s, t)
    ensures var s', sleepers := RunRound(s, r), s.lists[1];
            && s'.now == (if exists t :: t in sleepers && TimeHasCome(s, t, s.now) then s.now else s.now + r.waited)
            && |s'.lists| == |s.lists| && s'.lists[2..] == s.lists[2..] && s'.signaled == s.signaled && |s'.slots| == |s.slots|
            && (forall t :: t in s'.lists[0] <==> t in sleepers && TimeHasCome(s, t, s'.now))
            && (forall t :: t in s'.lists[1] <==> t in sleepers && !TimeHasCome(s, t, s'.now))
            && (forall t :: 0 <= t < |s.slots| ==>
                  s'.slots[t] == if t in sleepers && TimeHasCome(s, t, s'.now) then s.slots[t].(state := Ready) else s.slots[t])
  {
    hide Inv, Due, PollFrom;
    SleepersSleep(s);
    PollExact(s, 0);
    var c := s.lists[1];
    assert c[0..] == c && c[..0] == [];
    DueMembers(s, c, true);
    DueMembers(s, c, false);
    var s1 := Poll(s);
    if s1.lists[0] == [] {
      NobodyDue(s, c);
      assert s.lists[0] + [] == s.lists[0] && [] + c == c;
      assert s1.slots == s.slots && s1.lists == s.lists;
      TickKeeps(s, NOBODY, r.waited);
      var s2 := s.(now := s.now + r.waited);
      PollExact(s2, 0);
      DueMembers(s2, c, true);
      DueMembers(s2, c, false);
    } else {
      assert s1.lists[0][0] in Due(s, c, true);
    }
  }

  lemma {:induction false} NobodyDue(s: Sched, c: seq<nat>)
    requires (forall t :: t in c ==> Has(s, t)) && Due(s, c, true) == []
    ensures Due(s, c, false) == c && forall t :: t in c ==> !Expired(s, t)
    decreases |c|
  {
    if c != [] { NobodyDue(s, c[1..]); }
  }

  /** The computed timeout is the least after which somebody's time has come, and the largest number without sleepers. */
  lemma TimeoutIsLeast(s: Sched, m: nat, n: nat)
    requires Inv(s, NOBODY) && |s.lists| > 1 && Members(s, TIMEOUT) && IsMinTimeout(s, m)
    ensures forall t :: t in s.lists[1] ==> Sleeps(s, t)
    ensures s.lists[1] == [] ==> m == 0xFFFF_FFFF
    ensures s.lists[1] != [] ==> exists t :: t in s.lists[1] && TimeHasCome(s, t, s.now + m)
    ensures n < m ==> forall t :: t in s.lists[1] ==> !TimeHasCome(s, t, s.now + n)
  {
    SleepersSleep(s);
  }

  // ----- how a thread gives up the processor -----

  /** The dispatched thread and the lists after a dispatch that does nothing but end: by a yield, a wait of each kind, or the
      thread's end. Threads without an id, and waits for events that do not exist, only yield. */
  lemma LeaveMeans(s: Sched, leave: Leave)
    requires Between(s) && s.lists[0] != []
    ensures |s.lists| == 2 + |s.signaled| && Has(s, s.lists[0][0])
    ensures var t, rest, s' := s.lists[0][0], s.lists[0][1..], Dispatch(s, [], leave);
            var slot := s.slots[t];
            var again := s.(slots := s.slots[t := slot.(state := Ready)], lists := s.lists[0 := rest + [t]]);
            match leave
            case Finish(_) => s' == s.(slots := s.slots[t := slot.(state := Terminated)], lists := s.lists[0 := rest])
            case Yield => s' == again
            case SleepFor(ms) =>
              if !slot.named then s' == again
              else s' == s.(slots := s.slots[t := slot.(state := Asleep(s.now + ms))], lists := s.lists[0 := rest][1 := s.lists[1] + [t]])
            case NotifyWait =>
              if !slot.named then s' == again
              else if slot.pending then s' == again.(slots := s.slots[t := slot.(state := Ready, pending := false)])
              else s' == s.(slots := s.slots[t := slot.(state := OnNotify)], lists := s.lists[0 := rest])
            case EventWait(id) =>
              if !slot.named || id == 0 || id > |s.signaled| then s' == again
              else if s.signaled[id - 1] then s' == again.(signaled := s.signaled[id - 1 := false])
              else s' == s.(slots := s.slots[t := slot.(state := OnEvent(id - 1))],
                            lists := s.lists[0 := rest][1 + id := s.lists[1 + id] + [t]])
  {
    PopKeeps(s);
    var t := s.lists[0][0];
    assert s.lists[0][..0] + s.lists[0][1..] == s.lists[0][1..];
  }

  // ----- slots -----

  /** The slot a new thread gets is the first from `i` on that is empty or whose thread has ended, of which a host may not take
      one that a host still owns. */
  lemma {:induction false} FirstSlot(slots: seq<Slot>, i: nat, host: bool)
    requires i <= |slots|
    ensures var k := FreeSlot(slots, i, host);
            && (k < |slots| ==> slots[k].Absent? || (slots[k].state == Terminated && (host ==> !slots[k].owned)))
            && forall j :: i <= j < k ==> slots[j].Thread? && (slots[j].state != Terminated || (host && slots[j].owned))
    decreases |slots| - i
  {
    if i < |slots| { FirstSlot(slots, i + 1, host); }
  }

  /** The life of a host's thread: created it is not busy and on no list, started it is the last of the ready ones, destroyed
      before the start its slot is free for guests and hosts alike, and its function forgotten. */
  lemma HostThread(s: Sched, func: nat, grant: Grant)
    requires Between(s) && FreeSlot(s.slots, 1, true) < |s.slots| && !Refused(s, FreeSlot(s.slots, 1, true), grant)
    ensures var i := FreeSlot(s.slots, 1, true);
            var s1 := CreateHostThread(s, func, grant);
            && s1 == s.(slots := s.slots[i := Thread(Created, false, func, true, true)])
            && |s1.lists| > 0
            && StartThread(s1, i) == s1.(slots := s1.slots[i := s1.slots[i].(state := Ready)], lists := s1.lists[0 := s1.lists[0] + [i]])
            && var s2 := DestroyHostThread(s1, i);
               && s2 == s.(slots := s.slots[i := Thread(Terminated, false, 0, false, false)])
               && FreeSlot(s2.slots, i, true) == i && FreeSlot(s2.slots, i, false) == i
  {
  }

  /** What is ignored: starting a thread that is not waiting to be started; destroying the main thread, one that no host owns, or
      one that has been started and not ended; notifying nobody; signaling an event that does not exist. */
  lemma Ignored(s: Sched, cur: int, t: int, id: nat)
    requires Inv(s, cur)
    ensures |s.lists| == 2 + |s.signaled|
    ensures !Has(s, t) || s.slots[t].state != Created ==> StartThread(s, t) == s
    ensures !Has(s, t) || t == 0 || !s.slots[t].owned || (s.slots[t].state != Created && s.slots[t].state != Terminated) ==> DestroyHostThread(s, t) == s
    ensures !Has(s, t) ==> Notify(s, t) == s
    ensures id == 0 || id > |s.signaled| ==> Signal(s, id) == s
  {
  }
}
