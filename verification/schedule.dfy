// The cooperative scheduler on values: what every operation does to thread states, lists, event flags and the clock.
module Schedule {
  import opened Sequences

  datatype State = Created | Ready | Running | OnEvent(e: nat) | Asleep(wake: nat) | OnNotify | Terminated

  /** A thread slot. `pending` is the one-bit notify token; `owned` slots are only reused by hosts after they are destroyed;
      a thread is `named` when its own id is set, which is what it waits under. */
  datatype Slot = Absent | Thread(state: State, pending: bool, func: nat, owned: bool, named: bool)

  /** `lists[0]` is the ready list, `lists[1]` the timeout list, `lists[2 + e]` the wait list of event `e`. */
  datatype Sched = Sched(slots: seq<Slot>, lists: seq<seq<nat>>, signaled: seq<bool>, now: nat)

  const READY: nat := 0
  const TIMEOUT: nat := 1
  const MAIN: nat := 0
  const NOBODY: int := -1

  /** The main thread's context before it is first set up. */
  const IDLE: Slot := Thread(Terminated, false, 0, false, true)

  /** The list a thread in a given state belongs on, or NOBODY. */
  function Home(st: State): int
  {
    match st
    case Ready => READY
    case Asleep(_) => TIMEOUT
    case OnEvent(e) => 2 + e
    case _ => NOBODY
  }

  /** `cur`, while it is dispatched, is ready without being on the ready list: it is going to be requeued. */
  function Placed(s: Sched, cur: int, t: nat): int
    requires t < |s.slots|
  {
    if s.slots[t].Absent? || (t == cur && s.slots[t].state.Ready?) then NOBODY else Home(s.slots[t].state)
  }

  /** A list's members belong there, once each. */
  predicate ListOk(s: Sched, cur: int, l: nat)
    requires l < |s.lists|
  {
    Distinct(s.lists[l]) && forall t :: t in s.lists[l] ==> t < |s.slots| && Placed(s, cur, t) == l
  }

  predicate SlotOk(s: Sched, cur: int, t: nat)
    requires t < |s.slots|
  {
    s.slots[t].Thread? ==>
      && (Placed(s, cur, t) >= 0 ==> Placed(s, cur, t) < |s.lists| && t in s.lists[Placed(s, cur, t)])
      && (s.slots[t].state.Running? ==> t == cur)
      && (s.slots[t].state.OnNotify? ==> !s.slots[t].pending)
  }

  /** Every thread is exactly where its state says; nobody but `cur` runs; a signaled event has no waiters. */
  predicate Inv(s: Sched, cur: int)
  {
    && |s.lists| == 2 + |s.signaled|
    && (forall l :: 0 <= l < |s.lists| ==> ListOk(s, cur, l))
    && (forall t :: 0 <= t < |s.slots| ==> SlotOk(s, cur, t))
    && (forall e :: 0 <= e < |s.signaled| && s.signaled[e] ==> s.lists[2 + e] == [])
  }

  // ----- steps -----

  function SetState(s: Sched, t: nat, st: State): Sched
    requires t < |s.slots| && s.slots[t].Thread?
  {
    s.(slots := s.slots[t := s.slots[t].(state := st)])
  }

  function Append(s: Sched, l: nat, t: nat): Sched
    requires l < |s.lists|
  {
    s.(lists := s.lists[l := s.lists[l] + [t]])
  }

  function Unlink(s: Sched, l: nat, k: nat): Sched
    requires l < |s.lists| && k < |s.lists[l]|
  {
    s.(lists := s.lists[l := s.lists[l][..k] + s.lists[l][k + 1..]])
  }

  predicate Has(s: Sched, t: int) { 0 <= t < |s.slots| && s.slots[t].Thread? }

  /** Makes `t` ready and queues it. */
  function Wake(s: Sched, t: nat): Sched
    requires Has(s, t) && |s.lists| > 0
  {
    Append(SetState(s, t, Ready), READY, t)
  }

  /** Element `k` of list `l` becomes ready. */
  function Move(s: Sched, l: nat, k: nat): Sched
    requires l < |s.lists| && k < |s.lists[l]| && Has(s, s.lists[l][k])
  {
    Wake(Unlink(s, l, k), s.lists[l][k])
  }

  /** The members of list `l` are threads. */
  predicate Members(s: Sched, l: nat)
    requires l < |s.lists|
  {
    forall t :: t in s.lists[l] ==> Has(s, t)
  }

  /** All of list `l` becomes ready, front first. */
  function Drain(s: Sched, l: nat): Sched
    requires 0 < l < |s.lists| && Members(s, l)
    decreases |s.lists[l]|
  {
    if s.lists[l] == [] then s
    else
      MovedMembers(s, l, 0, l);
      Drain(Move(s, l, 0), l)
  }

  function Signal(s: Sched, id: nat): Sched
    requires |s.lists| == 2 + |s.signaled| && (0 < id <= |s.signaled| ==> Members(s, 1 + id))
  {
    if id == 0 || id > |s.signaled| then s
    else Drain(s.(signaled := s.signaled[id - 1 := true]), 1 + id)
  }

  function WaitEvent(s: Sched, t: int, id: nat): Sched
    requires |s.lists| == 2 + |s.signaled|
  {
    if !Has(s, t) || id == 0 || id > |s.signaled| then s
    else if s.signaled[id - 1] then SetState(s, t, Ready).(signaled := s.signaled[id - 1 := false])
    else Append(SetState(s, t, OnEvent(id - 1)), 1 + id, t)
  }

  function SetPending(s: Sched, t: nat, p: bool): Sched
    requires Has(s, t)
  {
    s.(slots := s.slots[t := s.slots[t].(pending := p)])
  }

  function Wait(s: Sched, t: int): Sched
  {
    if !Has(s, t) then s
    else if s.slots[t].pending then SetState(SetPending(s, t, false), t, Ready)
    else SetState(s, t, OnNotify)
  }

  function Notify(s: Sched, t: int): Sched
    requires |s.lists| > 0
  {
    if !Has(s, t) then s
    else if s.slots[t].state.OnNotify? then Wake(s, t)
    else SetPending(s, t, true)
  }

  function Sleep(s: Sched, t: int, ms: nat): Sched
    requires |s.lists| > 1
  {
    if !Has(s, t) then s else Append(SetState(s, t, Asleep(s.now + ms)), TIMEOUT, t)
  }

  predicate Expired(s: Sched, t: nat)
    requires Has(s, t)
  {
    s.slots[t].state.Asleep? && s.now >= s.slots[t].state.wake
  }

  /** Expired sleepers from element `k` of the timeout list on become ready. */
  function PollFrom(s: Sched, k: nat): Sched
    requires |s.lists| > 1 && Members(s, TIMEOUT)
    decreases |s.lists[TIMEOUT]| - k
  {
    if k >= |s.lists[TIMEOUT]| then s
    else if Expired(s, s.lists[TIMEOUT][k]) then
      MovedMembers(s, TIMEOUT, k, TIMEOUT);
      PollFrom(Move(s, TIMEOUT, k), k)
    else PollFrom(s, k + 1)
  }

  lemma MovedMembers(s: Sched, l: nat, k: nat, m: nat)
    requires 0 < l < |s.lists| && k < |s.lists[l]| && 0 < m < |s.lists| && Has(s, s.lists[l][k]) && Members(s, m)
    ensures Members(Move(s, l, k), m)
  {
    var s' := Move(s, l, k);
    forall t | t in s'.lists[m] ensures Has(s', t) { assert t in s.lists[m]; }
  }

  function Poll(s: Sched): Sched
    requires |s.lists| > 1 && Members(s, TIMEOUT)
  {
    PollFrom(s, 0)
  }

  /** The first slot a new guest thread may take, from `i` on; |slots| if there is none. */
  function FreeSlot(slots: seq<Slot>, i: nat, host: bool): (r: nat)
    requires i <= |slots|
    ensures i <= r <= |slots|
    ensures r < |slots| ==> slots[r].Absent? || slots[r].state.Terminated?
    decreases |slots| - i
  {
    if i == |slots| || slots[i].Absent? || (slots[i].state.Terminated? && !(host && slots[i].owned)) then i
    else FreeSlot(slots, i + 1, host)
  }

  /** The pool's answer when an empty slot needs a context. With the context but not all of its stacks the source goes on
      although the fields were not reset: the two bits are then whatever the memory held. */
  datatype Grant = Refusal | Context(pending: bool, owned: bool)

  const RESET: Grant := Context(false, false)

  predicate Refused(s: Sched, i: nat, grant: Grant) { i >= |s.slots| || (s.slots[i].Absent? && grant.Refusal?) }

  /** A guest thread starts ready; a reused slot keeps its notify token and its id, if it has one. */
  function CreateThread(s: Sched, func: nat, grant: Grant): Sched
    requires |s.slots| > MAIN && |s.lists| > 0
  {
    var i := FreeSlot(s.slots, MAIN + 1, false);
    if Refused(s, i, grant) then s
    else
      var slot := if s.slots[i].Absent? then Thread(Ready, grant.pending, func, grant.owned, true) else s.slots[i].(state := Ready, func := func);
      Append(s.(slots := s.slots[i := slot]), READY, i)
  }

  function CreateHostThread(s: Sched, func: nat, grant: Grant): Sched
    requires |s.slots| > MAIN
  {
    var i := FreeSlot(s.slots, MAIN + 1, true);
    if Refused(s, i, grant) then s else s.(slots := s.slots[i := Thread(Created, false, func, true, true)])
  }

  function StartThread(s: Sched, t: int): Sched
    requires |s.lists| > 0
  {
    if Has(s, t) && s.slots[t].state.Created? then Wake(s, t) else s
  }

  function DestroyHostThread(s: Sched, t: int): Sched
  {
    if Has(s, t) && t > MAIN && s.slots[t].owned && (s.slots[t].state.Terminated? || s.slots[t].state.Created?)
      then s.(slots := s.slots[t := Thread(Terminated, false, 0, false, false)])
      else s
  }

  // ----- one dispatch -----

  /** What the running thread, or the host beside it, may do before the thread gives up the processor. */
  datatype Action =
    | DoCreate(func: nat, grant: Grant) | DoCreateHost(func: nat, grant: Grant) | DoStart(t: int) | DoDestroy(t: int)
    | DoSignal(id: nat) | DoNotify(t: int) | DoTick(ms: nat)

  /** How a dispatch ends. Every wait is followed by a yield. */
  datatype Leave = Yield | EventWait(id: nat) | NotifyWait | SleepFor(ms: nat) | Finish(ok: bool)

  function Act(s: Sched, a: Action): Sched
    requires |s.lists| == 2 + |s.signaled| && |s.slots| > MAIN && forall l :: 0 <= l < |s.lists| ==> Members(s, l)
  {
    match a
    case DoCreate(f, grant) => CreateThread(s, f, grant)
    case DoCreateHost(f, grant) => CreateHostThread(s, f, grant)
    case DoStart(t) => StartThread(s, t)
    case DoDestroy(t) => DestroyHostThread(s, t)
    case DoSignal(id) => Signal(s, id)
    case DoNotify(t) => Notify(s, t)
    case DoTick(ms) => s.(now := s.now + ms)
  }

  /** What a thread takes for its own id; without one its waits name nobody. */
  function IdOf(s: Sched, t: nat): int
    requires Has(s, t)
  {
    if s.slots[t].named then t else NOBODY
  }

  /** A thread waits under its own id. */
  function Block(s: Sched, t: nat, w: Leave): Sched
    requires |s.lists| == 2 + |s.signaled| && Has(s, t)
  {
    match w
    case EventWait(id) => WaitEvent(s, IdOf(s, t), id)
    case NotifyWait => Wait(s, IdOf(s, t))
    case SleepFor(ms) => Sleep(s, IdOf(s, t), ms)
    case _ => s
  }

  /** The end of a dispatch: a thread that yielded while running or ready is queued again. */
  function Requeue(s: Sched, t: nat, yielded: bool): Sched
    requires Has(s, t) && |s.lists| > 0
  {
    if !yielded then SetState(s, t, Terminated)
    else if s.slots[t].state.Running? || s.slots[t].state.Ready? then Wake(s, t)
    else s
  }

  function Popped(s: Sched): Sched
    requires |s.lists| > 0 && s.lists[READY] != [] && Has(s, s.lists[READY][0])
  {
    SetState(Unlink(s, READY, 0), s.lists[READY][0], Running)
  }

  // ----- the invariant over single steps -----

  /** Only thread `t` changed, and it is listed where its new state says. */
  lemma Relocated(s: Sched, cur: int, s': Sched, cur': int, t: nat)
    requires Inv(s, cur) && t < |s.slots| == |s'.slots| && |s'.lists| == |s.lists| && |s'.signaled| == |s.signaled|
    requires forall u :: 0 <= u < |s.slots| && u != t ==> s'.slots[u] == s.slots[u] && (u == cur <==> u == cur')
    requires forall l :: 0 <= l < |s.lists| ==> ListMoved(s, s', cur', t, l)
    requires SlotOk(s', cur', t)
    requires forall e :: 0 <= e < |s.signaled| && s'.signaled[e] ==> s'.lists[2 + e] == []
    ensures Inv(s', cur')
  {
    forall l | 0 <= l < |s'.lists| ensures ListOk(s', cur', l) {
      assert ListOk(s, cur, l) && ListMoved(s, s', cur', t, l);
      forall u | u in s'.lists[l] ensures u < |s'.slots| && Placed(s', cur', u) == l { }
    }
    forall u | 0 <= u < |s'.slots| ensures SlotOk(s', cur', u) {
      assert SlotOk(s, cur, u);
      if u != t && s'.slots[u].Thread? && Placed(s', cur', u) >= 0 { assert ListMoved(s, s', cur', t, Placed(s', cur', u)); }
    }
  }

  ghost predicate ListMoved(s: Sched, s': Sched, cur': int, t: nat, l: nat)
    requires l < |s.lists| == |s'.lists| && t < |s'.slots|
  {
    && Distinct(s'.lists[l])
    && (forall u :: u != t ==> (u in s'.lists[l] <==> u in s.lists[l]))
    && (t in s'.lists[l] <==> Placed(s', cur', t) == l)
  }

  lemma UnlinkFacts(c: seq<nat>, k: nat)
    requires Distinct(c) && k < |c|
    ensures Distinct(c[..k] + c[k + 1..]) && c[k] !in c[..k] + c[k + 1..]
    ensures forall u :: u != c[k] ==> (u in c[..k] + c[k + 1..] <==> u in c)
  {
    var r := c[..k] + c[k + 1..];
    assert forall i :: 0 <= i < |r| ==> r[i] == c[if i < k then i else i + 1];
    forall u | u != c[k] && u in c ensures u in r {
      var i :| 0 <= i < |c| && c[i] == u;
      assert r[if i < k then i else i - 1] == u;
    }
  }

  lemma AppendFacts(c: seq<nat>, t: nat)
    requires Distinct(c) && t !in c
    ensures Distinct(c + [t]) && t in c + [t] && forall u :: u != t ==> (u in c + [t] <==> u in c)
  {
  }

  /** Where `t` is listed. */
  lemma Listed(s: Sched, cur: int, t: nat, l: nat)
    requires Inv(s, cur) && t < |s.slots| && l < |s.lists|
    ensures Distinct(s.lists[l]) && (t in s.lists[l] <==> Placed(s, cur, t) == l)
  {
    assert ListOk(s, cur, l) && SlotOk(s, cur, t);
  }

  lemma AllMembers(s: Sched, cur: int)
    requires Inv(s, cur)
    ensures forall l :: 0 <= l < |s.lists| ==> Members(s, l)
  {
    forall l | 0 <= l < |s.lists| ensures Members(s, l) { assert ListOk(s, cur, l); }
  }

  lemma MemberIs(s: Sched, cur: int, l: nat, k: nat)
    requires Inv(s, cur) && l < |s.lists| && k < |s.lists[l]|
    ensures Has(s, s.lists[l][k]) && Placed(s, cur, s.lists[l][k]) == l
  {
    assert ListOk(s, cur, l);
    assert s.lists[l][k] in s.lists[l];
  }

  /** A thread on no list is queued on the list of its new state. */
  lemma AppendKeeps(s: Sched, cur: int, t: nat, st: State)
    requires Inv(s, cur) && Has(s, t) && Placed(s, cur, t) == NOBODY && 0 <= Home(st) < |s.lists|
    requires t != cur || !st.Ready?
    requires st.OnEvent? ==> !s.signaled[st.e]
    ensures Inv(Append(SetState(s, t, st), Home(st), t), cur)
  {
    var s' := Append(SetState(s, t, st), Home(st), t);
    forall l | 0 <= l < |s.lists| ensures ListMoved(s, s', cur, t, l) {
      Listed(s, cur, t, l);
      if l == Home(st) { AppendFacts(s.lists[l], t); }
    }
    Relocated(s, cur, s', cur, t);
  }

  /** Waking takes a waiting thread from its list, if it is on one, to the ready list. */
  lemma MoveKeeps(s: Sched, cur: int, l: nat, k: nat)
    requires Inv(s, cur) && 0 < l < |s.lists| && k < |s.lists[l]| && s.lists[l][k] != cur
    ensures Has(s, s.lists[l][k]) && Inv(Move(s, l, k), cur)
  {
    var t := s.lists[l][k];
    MemberIs(s, cur, l, k);
    var s' := Move(s, l, k);
    forall m | 0 <= m < |s.lists| ensures ListMoved(s, s', cur, t, m) {
      Listed(s, cur, t, m);
      if m == l { UnlinkFacts(s.lists[l], k); }
      if m == READY { AppendFacts(s.lists[m], t); }
    }
    Relocated(s, cur, s', cur, t);
  }

  /** The popped thread is the running one. */
  lemma PopKeeps(s: Sched)
    requires Inv(s, NOBODY) && s.lists[READY] != []
    ensures Has(s, s.lists[READY][0]) && Inv(Popped(s), s.lists[READY][0])
  {
    var t := s.lists[READY][0];
    MemberIs(s, NOBODY, READY, 0);
    var s' := Popped(s);
    forall m | 0 <= m < |s.lists| ensures ListMoved(s, s', t, t, m) {
      Listed(s, NOBODY, t, m);
      if m == READY { UnlinkFacts(s.lists[READY], 0); }
    }
    Relocated(s, NOBODY, s', t, t);
  }

  /** A change of state, token or function that keeps the thread on no list. */
  lemma OffListKeeps(s: Sched, cur: int, s': Sched, t: nat)
    requires Inv(s, cur) && t < |s.slots| == |s'.slots| && s' == s.(slots := s.slots[t := s'.slots[t]])
    requires Placed(s, cur, t) == NOBODY && Placed(s', cur, t) == NOBODY && SlotOk(s', cur, t)
    ensures Inv(s', cur)
  {
    forall l | 0 <= l < |s.lists| ensures ListMoved(s, s', cur, t, l) { Listed(s, cur, t, l); }
    Relocated(s, cur, s', cur, t);
  }

  // ----- the invariant over operations -----

  /** `cur` is being dispatched and has not given up the processor; without `cur` nobody is. */
  predicate Runs(s: Sched, cur: int) { cur == NOBODY || (Has(s, cur) && s.slots[cur].state.Running?) }

  lemma {:induction false} DrainFlag(s: Sched, l: nat, sig: seq<bool>)
    requires 0 < l < |s.lists| && Members(s, l)
    ensures Members(s.(signaled := sig), l) && Drain(s.(signaled := sig), l) == Drain(s, l).(signaled := sig)
    decreases |s.lists[l]|
  {
    if s.lists[l] != [] {
      MovedMembers(s, l, 0, l);
      DrainFlag(Move(s, l, 0), l, sig);
      assert Move(s.(signaled := sig), l, 0) == Move(s, l, 0).(signaled := sig);
    }
  }

  /** `woken` moved to the end of the ready list, `left` stays on list `l`, and nothing else changed. */
  predicate Readies(s: Sched, s': Sched, l: nat, woken: seq<nat>, left: seq<nat>)
    requires 0 < l < |s.lists|
  {
    && |s'.slots| == |s.slots| && s'.signaled == s.signaled && s'.now == s.now
    && s'.lists == s.lists[READY := s.lists[READY] + woken][l := left]
    && forall t :: 0 <= t < |s.slots| ==>
         s'.slots[t] == (if s.slots[t].Thread? && t in woken then s.slots[t].(state := Ready) else s.slots[t])
  }

  lemma ReadiesNone(s: Sched, l: nat)
    requires 0 < l < |s.lists|
    ensures Readies(s, s, l, [], s.lists[l])
  {
    assert s.lists[READY] + [] == s.lists[READY];
  }

  /** One thread, then the others. */
  lemma ReadiesNext(s: Sched, s1: Sched, s': Sched, l: nat, t: nat, woken: seq<nat>, left: seq<nat>)
    requires 0 < l < |s.lists| && Has(s, t) && s1.slots == s.slots[t := s.slots[t].(state := Ready)]
    requires s1.signaled == s.signaled && s1.now == s.now && |s1.lists| == |s.lists|
    requires s1.lists == s.lists[READY := s.lists[READY] + [t]][l := s1.lists[l]]
    requires Readies(s1, s', l, woken, left)
    ensures Readies(s, s', l, [t] + woken, left)
  {
    assert s.lists[READY] + [t] + woken == s.lists[READY] + ([t] + woken);
  }

  /** Draining readies every member, in order, and changes nothing else. */
  lemma {:induction false} DrainAll(s: Sched, cur: int, l: nat)
    requires Inv(s, cur) && Runs(s, cur) && 0 < l < |s.lists|
    ensures Members(s, l) && Inv(Drain(s, l), cur) && Runs(Drain(s, l), cur)
    ensures Readies(s, Drain(s, l), l, s.lists[l], [])
    decreases |s.lists[l]|
  {
    hide Inv, Readies;
    AllMembers(s, cur);
    if s.lists[l] == [] {
      ReadiesNone(s, l);
    } else {
      MemberIs(s, cur, l, 0);
      MoveKeeps(s, cur, l, 0);
      MovedMembers(s, l, 0, l);
      var s1, t := Move(s, l, 0), s.lists[l][0];
      assert s1.lists[l] == s.lists[l][1..] && [t] + s1.lists[l] == s.lists[l];
      DrainAll(s1, cur, l);
      ReadiesNext(s, s1, Drain(s, l), l, t, s1.lists[l], []);
    }
  }

  /** A signal readies every waiter of its event, and leaves the flag set and the wait list empty. */
  lemma SignalWakesAll(s: Sched, cur: int, id: nat)
    requires Inv(s, cur) && Runs(s, cur)
    ensures 0 < id <= |s.signaled| ==> Members(s, 1 + id)
    ensures var s' := Signal(s, id);
            && Inv(s', cur) && Runs(s', cur)
            && (0 < id <= |s.signaled| ==>
                  && s'.signaled == s.signaled[id - 1 := true] && s'.lists[1 + id] == []
                  && s'.lists[READY] == s.lists[READY] + s.lists[1 + id]
                  && forall t :: Has(s, t) && s.slots[t].state == OnEvent(id - 1) ==> Has(s', t) && s'.slots[t].state.Ready? && t in s'.lists[READY])
  {
    if 0 < id <= |s.signaled| {
      var l, sig := 1 + id, s.signaled[id - 1 := true];
      DrainAll(s, cur, l);
      DrainFlag(s, l, sig);
      var s1 := Drain(s, l);
      var s' := s1.(signaled := sig);
      forall m | 0 <= m < |s'.lists| ensures ListOk(s', cur, m) { assert ListOk(s1, cur, m); }
      forall t | 0 <= t < |s'.slots| ensures SlotOk(s', cur, t) { assert SlotOk(s1, cur, t); }
      forall t | Has(s, t) && s.slots[t].state == OnEvent(id - 1) ensures Has(s', t) && s'.slots[t].state.Ready? && t in s'.lists[READY] {
        assert SlotOk(s, cur, t);
      }
    }
  }

  lemma TickKeeps(s: Sched, cur: int, ms: nat)
    requires Inv(s, cur)
    ensures Inv(s.(now := s.now + ms), cur)
  {
    var s' := s.(now := s.now + ms);
    forall m | 0 <= m < |s'.lists| ensures ListOk(s', cur, m) { assert ListOk(s, cur, m); }
    forall t | 0 <= t < |s'.slots| ensures SlotOk(s', cur, t) { assert SlotOk(s, cur, t); }
  }

  lemma NotifyKeeps(s: Sched, cur: int, t: int)
    requires Inv(s, cur) && (t == cur && Has(s, t) ==> !s.slots[t].state.OnNotify?)
    ensures Inv(Notify(s, t), cur)
  {
    if Has(s, t) {
      assert SlotOk(s, cur, t);
      if s.slots[t].state.OnNotify? {
        AppendKeeps(s, cur, t, Ready);
      } else {
        TokenKeeps(s, cur, t);
      }
    }
  }

  lemma TokenKeeps(s: Sched, cur: int, t: nat)
    requires Inv(s, cur) && Has(s, t) && !s.slots[t].state.OnNotify?
    ensures Inv(SetPending(s, t, true), cur)
  {
    var s' := SetPending(s, t, true);
    forall m | 0 <= m < |s'.lists| ensures ListOk(s', cur, m) { assert ListOk(s, cur, m); }
    forall u | 0 <= u < |s'.slots| ensures SlotOk(s', cur, u) { assert SlotOk(s, cur, u); }
  }

  /** A slot that was on no list is filled and queued as ready. */
  lemma FilledKeeps(s: Sched, cur: int, i: nat, slot: Slot)
    requires Inv(s, cur) && i < |s.slots| && i != cur && Placed(s, cur, i) == NOBODY && slot.Thread? && slot.state.Ready?
    ensures Inv(Append(s.(slots := s.slots[i := slot]), READY, i), cur)
  {
    var s' := Append(s.(slots := s.slots[i := slot]), READY, i);
    forall l | 0 <= l < |s.lists| ensures ListMoved(s, s', cur, i, l) {
      Listed(s, cur, i, l);
      if l == READY { AppendFacts(s.lists[l], i); }
    }
    Relocated(s, cur, s', cur, i);
  }

  lemma CreateKeeps(s: Sched, cur: int, func: nat, grant: Grant)
    requires Inv(s, cur) && Runs(s, cur) && |s.slots| > MAIN
    ensures Inv(CreateThread(s, func, grant), cur) && Runs(CreateThread(s, func, grant), cur)
    ensures Inv(CreateHostThread(s, func, grant), cur) && Runs(CreateHostThread(s, func, grant), cur)
  {
    var i, j := FreeSlot(s.slots, MAIN + 1, false), FreeSlot(s.slots, MAIN + 1, true);
    if !Refused(s, i, grant) {
      FilledKeeps(s, cur, i, if s.slots[i].Absent? then Thread(Ready, grant.pending, func, grant.owned, true) else s.slots[i].(state := Ready, func := func));
    }
    if !Refused(s, j, grant) { OffListKeeps(s, cur, CreateHostThread(s, func, grant), j); }
  }

  lemma ActKeeps(s: Sched, cur: int, a: Action)
    requires Inv(s, cur) && Runs(s, cur) && |s.slots| > MAIN
    ensures forall l :: 0 <= l < |s.lists| ==> Members(s, l)
    ensures Inv(Act(s, a), cur) && Runs(Act(s, a), cur) && |Act(s, a).slots| == |s.slots|
  {
    AllMembers(s, cur);
    match a
    case DoCreate(f, grant) => CreateKeeps(s, cur, f, grant);
    case DoCreateHost(f, grant) => CreateKeeps(s, cur, f, grant);
    case DoStart(t) => if Has(s, t) && s.slots[t].state.Created? { AppendKeeps(s, cur, t, Ready); }
    case DoDestroy(t) => if DestroyHostThread(s, t) != s { OffListKeeps(s, cur, DestroyHostThread(s, t), t); }
    case DoSignal(id) => SignalWakesAll(s, cur, id); SignalSize(s, id);
    case DoNotify(t) => NotifyKeeps(s, cur, t);
    case DoTick(ms) => TickKeeps(s, cur, ms);
  }

  lemma {:induction false} DrainSize(s: Sched, l: nat)
    requires 0 < l < |s.lists| && Members(s, l)
    ensures |Drain(s, l).slots| == |s.slots|
    decreases |s.lists[l]|
  {
    if s.lists[l] != [] {
      MovedMembers(s, l, 0, l);
      DrainSize(Move(s, l, 0), l);
    }
  }

  lemma SignalSize(s: Sched, id: nat)
    requires |s.lists| == 2 + |s.signaled| && (0 < id <= |s.signaled| ==> Members(s, 1 + id))
    ensures |Signal(s, id).slots| == |s.slots|
  {
    if 0 < id <= |s.signaled| { DrainSize(s.(signaled := s.signaled[id - 1 := true]), 1 + id); }
  }

  /** Giving up the processor: the thread waits where its state says, or is ready and about to be requeued. */
  lemma BlockKeeps(s: Sched, t: nat, w: Leave)
    requires Inv(s, t) && Has(s, t) && s.slots[t].state.Running?
    ensures Inv(Block(s, t, w), t) && Has(Block(s, t, w), t)
  {
    match w
    case EventWait(id) =>
      if s.slots[t].named && 0 < id <= |s.signaled| {
        if s.signaled[id - 1] { FlagTakenKeeps(s, t, id - 1); } else { AppendKeeps(s, t, t, OnEvent(id - 1)); }
      }
    case NotifyWait => if s.slots[t].named { OffListKeeps(s, t, Wait(s, t), t); }
    case SleepFor(ms) => if s.slots[t].named { AppendKeeps(s, t, t, Asleep(s.now + ms)); }
    case _ =>
  }

  lemma FlagTakenKeeps(s: Sched, t: nat, e: nat)
    requires Inv(s, t) && Has(s, t) && s.slots[t].state.Running? && e < |s.signaled|
    ensures Inv(SetState(s, t, Ready).(signaled := s.signaled[e := false]), t)
  {
    var s1 := SetState(s, t, Ready);
    OffListKeeps(s, t, s1, t);
    var s' := s1.(signaled := s.signaled[e := false]);
    forall m | 0 <= m < |s'.lists| ensures ListOk(s', t, m) { assert ListOk(s1, t, m); }
    forall u | 0 <= u < |s'.slots| ensures SlotOk(s', t, u) { assert SlotOk(s1, t, u); }
  }

  /** The end of a dispatch restores the invariant between dispatches. */
  lemma RequeueKeeps(s: Sched, t: nat, yielded: bool)
    requires Inv(s, t) && Has(s, t) && (!yielded ==> Placed(s, t, t) == NOBODY)
    ensures Inv(Requeue(s, t, yielded), NOBODY)
  {
    var s' := Requeue(s, t, yielded);
    forall l | 0 <= l < |s.lists| ensures ListMoved(s, s', NOBODY, t, l) {
      Listed(s, t, t, l);
      if l == READY && t !in s.lists[l] { AppendFacts(s.lists[l], t); }
    }
    assert SlotOk(s, t, t);
    Relocated(s, t, s', NOBODY, t);
  }

  // ----- whole dispatches -----

  predicate Between(s: Sched) { Inv(s, NOBODY) && |s.slots| > MAIN }

  function ActAll(s: Sched, cur: int, acts: seq<Action>): (s': Sched)
    requires Inv(s, cur) && Runs(s, cur) && |s.slots| > MAIN
    ensures Inv(s', cur) && Runs(s', cur) && |s'.slots| == |s.slots|
    decreases |acts|
  {
    if acts == [] then s
    else
      ActKeeps(s, cur, acts[0]);
      ActAll(Act(s, acts[0]), cur, acts[1..])
  }

  /** One dispatch: the front of the ready list runs, acts, and leaves. Without a ready thread nothing happens. */
  function Dispatch(s: Sched, acts: seq<Action>, leave: Leave): (s': Sched)
    requires Between(s)
    ensures Between(s')
  {
    if s.lists[READY] == [] then s
    else
      PopKeeps(s);
      var t := s.lists[READY][0];
      var s1 := ActAll(Popped(s), t, acts);
      BlockKeeps(s1, t, leave);
      var s2 := Block(s1, t, leave);
      FinishOffList(s1, t, leave);
      RequeueKeeps(s2, t, !leave.Finish?);
      Requeue(s2, t, !leave.Finish?)
  }

  lemma FinishOffList(s: Sched, t: nat, w: Leave)
    requires Inv(s, t) && Has(s, t) && s.slots[t].state.Running?
    ensures w.Finish? ==> Placed(Block(s, t, w), t, t) == NOBODY
  {
  }

  /** When no thread is active, every list is empty. */
  lemma IdleListsAreEmpty(s: Sched)
    requires Inv(s, NOBODY)
    requires forall t :: Has(s, t) ==> s.slots[t].state.Created? || s.slots[t].state.Terminated?
    ensures forall l :: 0 <= l < |s.lists| ==> s.lists[l] == []
  {
    forall l | 0 <= l < |s.lists| ensures s.lists[l] == [] {
      if s.lists[l] != [] { MemberIs(s, NOBODY, l, 0); }
    }
  }

  // ----- bounded waiting -----

  /** The ready list of `s'` is that of `s` with threads added at the end. */
  predicate Extends(a: seq<nat>, b: seq<nat>) { |a| <= |b| && b[..|a|] == a }

  lemma ExtendsTrans(a: seq<nat>, b: seq<nat>, c: seq<nat>)
    requires Extends(a, b) && Extends(b, c)
    ensures Extends(a, c)
  {
    assert c[..|a|] == c[..|b|][..|a|];
  }

  lemma ActExtends(s: Sched, cur: int, a: Action)
    requires Inv(s, cur) && Runs(s, cur) && |s.slots| > MAIN
    ensures forall l :: 0 <= l < |s.lists| ==> Members(s, l)
    ensures |Act(s, a).lists| == |s.lists| && Extends(s.lists[READY], Act(s, a).lists[READY])
  {
    AllMembers(s, cur);
    ActKeeps(s, cur, a);
    if a.DoSignal? { SignalWakesAll(s, cur, a.id); }
  }

  lemma {:induction false} ActAllExtends(s: Sched, cur: int, acts: seq<Action>)
    requires Inv(s, cur) && Runs(s, cur) && |s.slots| > MAIN
    ensures |ActAll(s, cur, acts).lists| == |s.lists| && Extends(s.lists[READY], ActAll(s, cur, acts).lists[READY])
    decreases |acts|
  {
    if acts != [] {
      ActKeeps(s, cur, acts[0]);
      ActExtends(s, cur, acts[0]);
      ActAllExtends(Act(s, acts[0]), cur, acts[1..]);
      ExtendsTrans(s.lists[READY], Act(s, acts[0]).lists[READY], ActAll(s, cur, acts).lists[READY]);
    }
  }

  /** A dispatch takes the front of the ready list and adds only at its end. */
  lemma DispatchExtends(s: Sched, acts: seq<Action>, leave: Leave)
    requires Between(s) && s.lists[READY] != []
    ensures |Dispatch(s, acts, leave).lists| == |s.lists| && Extends(s.lists[READY][1..], Dispatch(s, acts, leave).lists[READY])
  {
    PopKeeps(s);
    var t := s.lists[READY][0];
    var s0 := Popped(s);
    var s1 := ActAll(s0, t, acts);
    ActAllExtends(s0, t, acts);
    assert s0.lists[READY] == s.lists[READY][1..];
    BlockKeeps(s1, t, leave);
    var s2 := Block(s1, t, leave);
    FinishOffList(s1, t, leave);
    var s3 := Requeue(s2, t, !leave.Finish?);
    assert s2.lists[READY] == s1.lists[READY];
    assert Extends(s2.lists[READY], s3.lists[READY]);
    ExtendsTrans(s0.lists[READY], s1.lists[READY], s3.lists[READY]);
  }

  datatype Turn = Turn(acts: seq<Action>, leave: Leave)

  function DispatchAll(s: Sched, turns: seq<Turn>): (s': Sched)
    requires Between(s)
    ensures Between(s')
    decreases |turns|
  {
    if turns == [] then s else DispatchAll(Dispatch(s, turns[0].acts, turns[0].leave), turns[1..])
  }

  /** Bounded waiting: a thread at position `k` of the ready list is at the front after `k` dispatches, whatever they do. */
  lemma {:induction false} BoundedWaiting(s: Sched, k: nat, turns: seq<Turn>)
    requires Between(s) && k < |s.lists[READY]| && |turns| == k
    ensures var s' := DispatchAll(s, turns); s'.lists[READY] != [] && s'.lists[READY][0] == s.lists[READY][k]
    decreases k
  {
    hide Between, Dispatch;
    if k > 0 {
      BetweenHasLists(s);
      DispatchExtends(s, turns[0].acts, turns[0].leave);
      var s1 := Dispatch(s, turns[0].acts, turns[0].leave);
      assert s1.lists[READY][k - 1] == s1.lists[READY][..|s.lists[READY]| - 1][k - 1] == s.lists[READY][1..][k - 1];
      BoundedWaiting(s1, k - 1, turns[1..]);
    }
  }

  lemma BetweenHasLists(s: Sched)
    requires Between(s)
    ensures |s.lists| >= 2
  {
  }

  // ----- the notify token -----

  /** A binary semaphore: the token, and whether the owner is blocked on it. */
  datatype Semaphore = Semaphore(token: bool, blocked: bool)

  /** Release: a blocked owner goes on and the token is used up at once; otherwise the token is there. */
  function V(m: Semaphore): Semaphore { if m.blocked then Semaphore(false, false) else Semaphore(true, false) }

  /** Acquire: takes the token or blocks. */
  function P(m: Semaphore): Semaphore { if m.token then Semaphore(false, false) else Semaphore(false, true) }

  function SemaphoreOf(s: Sched, t: nat): Semaphore
    requires Has(s, t)
  {
    Semaphore(s.slots[t].pending, s.slots[t].state.OnNotify?)
  }

  /** Wait and notify are the two operations of a semaphore, and a wait that passes leaves the thread ready. */
  lemma NotifyIsSemaphore(s: Sched, cur: int, t: nat)
    requires Inv(s, cur) && Has(s, t)
    ensures Has(Notify(s, t), t) && SemaphoreOf(Notify(s, t), t) == V(SemaphoreOf(s, t))
    ensures Has(Wait(s, t), t) && SemaphoreOf(Wait(s, t), t) == P(SemaphoreOf(s, t))
    ensures s.slots[t].pending ==> Wait(s, t).slots[t].state.Ready?
    ensures s.slots[t].state.OnNotify? ==> Notify(s, t).slots[t].state.Ready? && t in Notify(s, t).lists[READY]
    ensures forall u :: Has(s, u) && u != t ==> Has(Notify(s, t), u) && SemaphoreOf(Notify(s, t), u) == SemaphoreOf(s, u)
  {
    assert SlotOk(s, cur, t);
  }

  datatype SemOp = Acquire | Release

  /** A run of a semaphore; a blocked owner cannot acquire again. */
  function SemRun(m: Semaphore, ops: seq<SemOp>): Semaphore
    decreases |ops|
  {
    if ops == [] then m
    else SemRun(if ops[0].Release? then V(m) else if m.blocked then m else P(m), ops[1..])
  }

  /** No wake-up is lost, in any run: nobody is blocked while the token is there; after a release nobody is blocked; and
      a release that found the owner running lets its next acquire pass. */
  lemma {:induction false} NoLostWakeup(m: Semaphore, ops: seq<SemOp>)
    requires !(m.token && m.blocked)
    ensures var r := SemRun(m, ops);
            && !(r.token && r.blocked) && !SemRun(m, ops + [Release]).blocked
            && (!r.blocked ==> !SemRun(m, ops + [Release, Acquire]).blocked)
    decreases |ops|
  {
    if ops == [] {
      assert [] + [Release, Acquire] == [Release, Acquire] && [Release, Acquire][1..] == [Acquire];
      assert SemRun(m, [Release, Acquire]) == SemRun(V(m), [Acquire]) == SemRun(if V(m).blocked then V(m) else P(V(m)), []);
    } else {
      NoLostWakeup(if ops[0].Release? then V(m) else if m.blocked then m else P(m), ops[1..]);
      assert (ops + [Release])[1..] == ops[1..] + [Release];
      assert (ops + [Release, Acquire])[1..] == ops[1..] + [Release, Acquire];
    }
  }

  // ----- a wake-up between wait and requeue -----

  /** Waking the dispatched thread after it began to wait and before it is requeued puts it on the ready list twice; any
      other notification in that window is harmless. */
  lemma NotifyBeforeRequeue(s: Sched, cur: nat, t: int)
    requires Inv(s, cur) && Has(s, cur) && s.slots[cur].state.OnNotify?
    ensures Has(Notify(s, t), cur)
    ensures Inv(Requeue(Notify(s, t), cur, true), NOBODY) <==> t != cur
    ensures t == cur ==> Requeue(Notify(s, t), cur, true).lists[READY] == s.lists[READY] + [cur, cur]
  {
    if t != cur {
      NotifyKeeps(s, cur, t);
      RequeueKeeps(Notify(s, t), cur, true);
    } else {
      var r := Requeue(Notify(s, t), cur, true);
      var n := |s.lists[READY]|;
      assert r.lists[READY] == s.lists[READY] + [cur, cur];
      assert r.lists[READY][n] == r.lists[READY][n + 1];
      assert Inv(r, NOBODY) ==> ListOk(r, NOBODY, READY);
    }
  }

  // ----- timers -----

  const FOREVER: nat := 0xFFFF_FFFF

  function Remaining(s: Sched, t: nat): nat
    requires Has(s, t)
  {
    if s.slots[t].state.Asleep? && s.slots[t].state.wake > s.now then s.slots[t].state.wake - s.now else 0
  }

  /** The members of `c` that do, or do not, have to wake up. */
  function Due(s: Sched, c: seq<nat>, due: bool): seq<nat>
    requires forall t :: t in c ==> Has(s, t)
  {
    if c == [] then [] else (if Expired(s, c[0]) == due then [c[0]] else []) + Due(s, c[1..], due)
  }

  lemma {:induction false} DueMembers(s: Sched, c: seq<nat>, due: bool)
    requires forall t :: t in c ==> Has(s, t)
    ensures forall t :: t in Due(s, c, due) <==> t in c && Expired(s, t) == due
    decreases |c|
  {
    if c != [] {
      DueMembers(s, c[1..], due);
      assert forall t :: t in c <==> t == c[0] || t in c[1..];
    }
  }

  /** Polling from position `k` on. */
  lemma {:induction false} PollExact(s: Sched, k: nat)
    requires Inv(s, NOBODY) && k <= |s.lists[TIMEOUT]|
    ensures Members(s, TIMEOUT) && Inv(PollFrom(s, k), NOBODY)
    ensures forall t :: t in s.lists[TIMEOUT][k..] ==> Has(s, t)
    ensures var front, rest := s.lists[TIMEOUT][..k], s.lists[TIMEOUT][k..];
            Readies(s, PollFrom(s, k), TIMEOUT, Due(s, rest, true), front + Due(s, rest, false))
    decreases |s.lists[TIMEOUT]| - k
  {
    hide Inv, Move, Readies;
    TimeoutMembers(s);
    var c := s.lists[TIMEOUT];
    if k == |c| {
      assert c[..k] + [] == c && s.lists[READY] + [] == s.lists[READY];
      ReadiesNone(s, TIMEOUT);
    } else {
      var t := c[k];
      assert c[k..] == [t] + c[k + 1..];
      if Expired(s, t) {
        PollMove(s, k);
        var s1 := Move(s, TIMEOUT, k);
        PollExact(s1, k);
        DueSame(s, s1, c[k + 1..], t, true);
        DueSame(s, s1, c[k + 1..], t, false);
        assert Due(s, c[k..], true) == [t] + Due(s, c[k + 1..], true) && Due(s, c[k..], false) == Due(s, c[k + 1..], false);
        ReadiesNext(s, s1, PollFrom(s, k), TIMEOUT, t, Due(s, c[k + 1..], true), c[..k] + Due(s, c[k..], false));
      } else {
        PollExact(s, k + 1);
        assert Due(s, c[k..], true) == Due(s, c[k + 1..], true) && Due(s, c[k..], false) == [t] + Due(s, c[k + 1..], false);
        assert c[..k + 1] + Due(s, c[k + 1..], false) == c[..k] + Due(s, c[k..], false);
      }
    }
  }

  lemma TimeoutMembers(s: Sched)
    requires Inv(s, NOBODY)
    ensures |s.lists| >= 2 && Members(s, TIMEOUT) && Distinct(s.lists[TIMEOUT])
  {
    AllMembers(s, NOBODY);
    assert ListOk(s, NOBODY, TIMEOUT);
  }

  lemma PollMove(s: Sched, k: nat)
    requires Inv(s, NOBODY) && |s.lists| >= 2 && k < |s.lists[TIMEOUT]|
    ensures Has(s, s.lists[TIMEOUT][k])
    ensures var s1, t, c := Move(s, TIMEOUT, k), s.lists[TIMEOUT][k], s.lists[TIMEOUT];
            && Inv(s1, NOBODY) && |s1.slots| == |s.slots| && s1.signaled == s.signaled && s1.now == s.now
            && s1.lists == s.lists[READY := s.lists[READY] + [t]][TIMEOUT := c[..k] + c[k + 1..]]
            && s1.slots == s.slots[t := s.slots[t].(state := Ready)]
            && t !in c[k + 1..] && (c[..k] + c[k + 1..])[..k] == c[..k] && (c[..k] + c[k + 1..])[k..] == c[k + 1..]
            && s1.lists[TIMEOUT] == c[..k] + c[k + 1..]
  {
    MemberIs(s, NOBODY, TIMEOUT, k);
    MoveKeeps(s, NOBODY, TIMEOUT, k);
    TimeoutMembers(s);
    UnlinkFacts(s.lists[TIMEOUT], k);
  }

  lemma {:induction false} DueSame(s: Sched, s1: Sched, c: seq<nat>, t: nat, due: bool)
    requires t !in c && Has(s, t) && s1.now == s.now && s1.slots == s.slots[t := s.slots[t].(state := Ready)]
    requires forall u :: u in c ==> Has(s, u)
    ensures forall u :: u in c ==> Has(s1, u)
    ensures Due(s1, c, due) == Due(s, c, due)
    decreases |c|
  {
    if c != [] {
      assert c[0] in c && c[0] != t;
      DueSame(s, s1, c[1..], t, due);
    }
  }

  /** `m` is the least remaining sleep, or FOREVER without sleepers. */
  predicate IsMinTimeout(s: Sched, m: nat)
    requires |s.lists| > 1 && Members(s, TIMEOUT)
  {
    && (forall t :: t in s.lists[TIMEOUT] ==> m <= Remaining(s, t))
    && (s.lists[TIMEOUT] != [] ==> exists t :: t in s.lists[TIMEOUT] && m == Remaining(s, t))
    && (s.lists[TIMEOUT] == [] ==> m == FOREVER)
  }

  /** After the computed timeout a poll readies at least one sleeper: all that expired, and none that did not. */
  lemma TimeoutWakes(s: Sched, m: nat)
    requires Inv(s, NOBODY) && |s.lists| > 1 && Members(s, TIMEOUT) && IsMinTimeout(s, m) && s.lists[TIMEOUT] != []
    ensures var s1 := s.(now := s.now + m);
            && Members(s1, TIMEOUT)
            && var s' := Poll(s1);
               && Inv(s', NOBODY)
               && (forall t :: t in s.lists[TIMEOUT] ==> Has(s1, t) && (t in s'.lists[READY] <==> Expired(s1, t)) && (t in s'.lists[TIMEOUT] <==> !Expired(s1, t)))
               && (exists t :: t in s.lists[TIMEOUT] && t in s'.lists[READY])
               && |s'.lists[READY]| > |s.lists[READY]|
  {
    hide Inv, PollFrom, Due;
    TickKeeps(s, NOBODY, m);
    var s1 := s.(now := s.now + m);
    PollExact(s1, 0);
    var c := s.lists[TIMEOUT];
    assert c[0..] == c && c[..0] == [];
    DueMembers(s1, c, true);
    DueMembers(s1, c, false);
    SleepersNotReady(s1);
    var t :| t in c && m == Remaining(s, t);
    SleepersPlaced(s);
    assert Expired(s1, t);
    var d := Due(s1, c, true);
    assert t in d;
  }

  lemma SleepersPlaced(s: Sched)
    requires Inv(s, NOBODY)
    ensures |s.lists| >= 2 && forall t :: t in s.lists[TIMEOUT] ==> Has(s, t) && Placed(s, NOBODY, t) == TIMEOUT
  {
    assert ListOk(s, NOBODY, TIMEOUT);
  }

  lemma SleepersNotReady(s: Sched)
    requires Inv(s, NOBODY)
    ensures |s.lists| >= 2 && forall t :: t in s.lists[TIMEOUT] ==> t !in s.lists[READY]
  {
    assert ListOk(s, NOBODY, TIMEOUT) && ListOk(s, NOBODY, READY);
  }

  // ----- the run loop -----

  /** What the dispatched thread does, and how long the platform waits when nobody is ready. */
  datatype Round = Round(acts: seq<Action>, leave: Leave, waited: nat)

  datatype RunResult = AllDone | Failed | StillRunning

  predicate Active(slot: Slot) { slot.Thread? && !slot.state.Terminated? && !slot.state.Created? }

  predicate AnyActive(s: Sched) { exists t :: 0 <= t < |s.slots| && Active(s.slots[t]) }

  /** One round with an active thread: a dispatch, or a poll, a wait and another poll. */
  function RunRound(s: Sched, r: Round): (s': Sched)
    requires Between(s)
    ensures Between(s')
  {
    if s.lists[READY] != [] then Dispatch(s, r.acts, r.leave)
    else
      PollExact(s, 0);
      var s1 := Poll(s);
      if s1.lists[READY] != [] then s1
      else
        TickKeeps(s1, NOBODY, r.waited);
        PollExact(s1.(now := s1.now + r.waited), 0);
        Poll(s1.(now := s1.now + r.waited))
  }

  /** The state after the rounds, and why the loop stopped. */
  function RunRounds(s: Sched, script: seq<Round>): (RunResult, Sched)
    requires Between(s)
    decreases |script|
  {
    if script == [] then (StillRunning, s)
    else if !AnyActive(s) then (AllDone, s)
    else if s.lists[READY] != [] && script[0].leave == Finish(false) then (Failed, RunRound(s, script[0]))
    else RunRounds(RunRound(s, script[0]), script[1..])
  }

  /** The loop ends well only when nobody is active, and then every list is empty. */
  lemma {:induction false} DoneMeansIdle(s: Sched, script: seq<Round>)
    requires Between(s)
    ensures Between(RunRounds(s, script).1)
    ensures RunRounds(s, script).0 == AllDone ==>
              var s' := RunRounds(s, script).1; !AnyActive(s') && forall l :: 0 <= l < |s'.lists| ==> s'.lists[l] == []
    decreases |script|
  {
    hide RunRound;
    if script != [] {
      if !AnyActive(s) {
        assert forall t :: Has(s, t) ==> !Active(s.slots[t]);
        IdleListsAreEmpty(s);
      } else {
        DoneMeansIdle(RunRound(s, script[0]), script[1..]);
      }
    }
  }
}
