/** What holds in every state of every run of the Wakeup machine. */
module WakeupProofs {
  import opened Events
  import opened Wakeup

  /** The threads whose program counter satisfies `p`. */
  ghost function Those(pcs: map<Tid, Pc>, p: Pc -> bool): set<Tid> {
    set t | t in pcs && p(pcs[t])
  }

  predicate InDrain(pc: Pc) {
    pc.Drain? || pc.DrainEnd?
  }

  /** With messages taken over and not yet dispatched. */
  predicate HasNews(pc: Pc) {
    InDrain(pc) || pc.Dispatch?
  }

  /** In handle_events. */
  predicate InHandler(pc: Pc) {
    pc.Prepare? || pc.Poll? || pc.Triggered? || HasNews(pc) || pc.Process?
  }

  /** Between setting and clearing event_handler_active. */
  predicate HandlerSet(pc: Pc) {
    InHandler(pc) || pc.Closing? || pc.CloseEnd? || pc.ClearActive?
  }

  /** Inside the events lock. */
  predicate HasEventsLock(pc: Pc) {
    pc.SetActive? || pc.CloseActive? || HandlerSet(pc) || pc.Unlock?
  }

  predicate HasWaitersLock(pc: Pc) {
    pc.CheckDone? || pc.ActiveClose? || pc.ActiveRead? || pc.GoToSleep? || pc.WaitersUnlock?
  }

  /** Between announcing a close and withdrawing that. */
  predicate InClose(pc: Pc) {
    pc.CloseLock? || pc.CloseActive? || pc.Closing? || pc.CloseEnd?
  }

  /** Asleep, or bound to be without another look around. */
  predicate Sleeps(pc: Pc) {
    pc.GoToSleep? || pc.Asleep?
  }

  /** Still to broadcast before it is done. */
  predicate WillBroadcast(pc: Pc) {
    HasEventsLock(pc) || pc.CloseLock? || pc.Broadcast?
  }

  ghost predicate AtMostOne(ts: set<Tid>) {
    forall t, u :: t in ts && u in ts ==> t == u
  }

  ghost predicate Locks(s: State) {
    && s.eventsLock == Those(s.pcs, HasEventsLock) && AtMostOne(s.eventsLock)
    && s.waitersLock == Those(s.pcs, HasWaitersLock) && AtMostOne(s.waitersLock)
    && (s.handlerActive <==> Those(s.pcs, HandlerSet) != {})
  }

  ghost predicate Announced(s: State) {
    s.e.deviceClose == |Those(s.pcs, InClose)|
  }

  ghost predicate SleepersHaveWaker(s: State) {
    Those(s.pcs, Sleeps) != {} ==> Those(s.pcs, WillBroadcast) != {}
  }

  ghost predicate Conserved(s: State) {
    && Agree(s.e, Those(s.pcs, InDrain) != {})
    && (s.taken != [] ==> Those(s.pcs, InDrain) != {})
    && (s.news != [] ==> Those(s.pcs, HasNews) != {})
    && s.handed + s.taken + s.e.completed == s.everSignalled
    && s.messages + s.news + s.e.hotplugMsgs == s.everPosted
  }

  ghost predicate Inv(s: State) {
    Locks(s) && Announced(s) && SleepersHaveWaker(s) && Conserved(s)
  }

  lemma {:induction false} Move(pcs: map<Tid, Pc>, t: Tid, pc: Pc, p: Pc -> bool)
    requires t in pcs
    ensures Those(pcs[t := pc], p) == if p(pc) then Those(pcs, p) + {t} else Those(pcs, p) - {t}
  {
  }

  lemma {:induction false} Belongs(pcs: map<Tid, Pc>, t: Tid, p: Pc -> bool)
    requires t in pcs
    ensures t in Those(pcs, p) <==> p(pcs[t])
  {
  }

  /** Every action of a thread that is not a broadcast moves that thread alone. */
  lemma {:induction false} Moves(s: State, t: Tid, choice: bool)
    requires Enabled(s, Step(t, choice)) && s.pcs[t] != Broadcast
    ensures t in s.pcs && t in StepOf(s, t, choice).pcs
    ensures StepOf(s, t, choice).pcs == s.pcs[t := StepOf(s, t, choice).pcs[t]]
  {
    hide Trigger, TriggerEnd, BeginClose, EndClose, PrepareSources, TakenMessages;
  }

  // How one step of a thread changes the locks, event_handler_active and device_close, by where it is before and after.

  predicate Entering(pc: Pc) {
    pc.TryClose? || pc.TryLock? || pc.SetActive?
  }

  predicate BeginsToWait(pc: Pc) {
    pc.WaitersLock? || pc.CheckDone? || pc.ActiveClose? || pc.ActiveRead?
  }

  predicate Waits(pc: Pc) {
    pc.GoToSleep? || pc.Woken? || pc.WaitersUnlock?
  }

  predicate BeginsToClose(pc: Pc) {
    pc.CloseBegin? || pc.CloseLock? || pc.CloseActive?
  }

  predicate Leaving(pc: Pc) {
    pc.Closing? || pc.CloseEnd? || pc.ClearActive? || pc.Unlock?
  }

  ghost predicate Changes(s: State, s': State, t: Tid) {
    && t in s.pcs && t in s'.pcs
    && var pc, pc' := s.pcs[t], s'.pcs[t];
    && s'.eventsLock
       == (if HasEventsLock(pc) == HasEventsLock(pc') then s.eventsLock else if HasEventsLock(pc') then {t} else {})
    && (!HasEventsLock(pc) && HasEventsLock(pc') ==> s.eventsLock == {})
    && s'.waitersLock
       == (if HasWaitersLock(pc) == HasWaitersLock(pc') then s.waitersLock else if HasWaitersLock(pc') then {t} else {})
    && (!HasWaitersLock(pc) && HasWaitersLock(pc') ==> s.waitersLock == {})
    && s'.handlerActive == (if HandlerSet(pc) == HandlerSet(pc') then s.handlerActive else HandlerSet(pc'))
    && s'.e.deviceClose + (if InClose(pc) then 1 else 0) == s.e.deviceClose + (if InClose(pc') then 1 else 0)
  }

  lemma {:induction false} OutsideEvents(pc: Pc)
    requires BeginsToWait(pc) || Waits(pc) || pc.Asleep? || pc.Idle? || pc.TryClose?
    ensures !HasEventsLock(pc) && !HandlerSet(pc) && !InClose(pc)
  {
  }

  lemma {:induction false} TryChanges(s: State, t: Tid, choice: bool)
    requires Enabled(s, Step(t, choice)) && (s.pcs[t].TryClose? || s.pcs[t].TryLock?)
    ensures Changes(s, StepOf(s, t, choice), t)
  {
    hide Trigger, TriggerEnd, BeginClose, EndClose, PrepareSources, TakenMessages;
  }

  lemma {:induction false} EntryChanges(s: State, t: Tid, choice: bool)
    requires Enabled(s, Step(t, choice)) && Entering(s.pcs[t])
    ensures Changes(s, StepOf(s, t, choice), t)
  {
    hide Trigger, TriggerEnd, BeginClose, EndClose, PrepareSources, TakenMessages;
    if !s.pcs[t].SetActive? {
      hide Changes, StepOf;
      TryChanges(s, t, choice);
    }
  }

  lemma {:induction false} InsideEvents(pc: Pc)
    requires InHandler(pc) || pc.ClearActive?
    ensures HasEventsLock(pc) && HandlerSet(pc) && !HasWaitersLock(pc) && !InClose(pc)
  {
  }

  lemma {:induction false} HandlerChanges(s: State, t: Tid, choice: bool)
    requires Enabled(s, Step(t, choice)) && InHandler(s.pcs[t])
    ensures Changes(s, StepOf(s, t, choice), t)
  {
    hide Trigger, TriggerEnd, BeginClose, EndClose, PrepareSources, TakenMessages, HasEventsLock, HandlerSet;
    hide HasWaitersLock, InClose;
    OnlyClosesCount(s.e, choice, s.taken);
    InsideEvents(s.pcs[t]);
    InsideEvents(StepOf(s, t, choice).pcs[t]);
  }

  lemma {:induction false} WaitBeginChanges(s: State, t: Tid, choice: bool)
    requires Enabled(s, Step(t, choice)) && BeginsToWait(s.pcs[t])
    ensures Changes(s, StepOf(s, t, choice), t)
  {
    hide Trigger, TriggerEnd, BeginClose, EndClose, PrepareSources, TakenMessages, HasEventsLock, HandlerSet, InClose;
    OutsideEvents(s.pcs[t]);
    OutsideEvents(StepOf(s, t, choice).pcs[t]);
  }

  lemma {:induction false} WaitChanges(s: State, t: Tid, choice: bool)
    requires Enabled(s, Step(t, choice)) && Waits(s.pcs[t])
    ensures Changes(s, StepOf(s, t, choice), t)
  {
    hide Trigger, TriggerEnd, BeginClose, EndClose, PrepareSources, TakenMessages, HasEventsLock, HandlerSet, InClose;
    OutsideEvents(s.pcs[t]);
    OutsideEvents(StepOf(s, t, choice).pcs[t]);
  }

  lemma {:induction false} CloseBeginChanges(s: State, t: Tid, choice: bool)
    requires Enabled(s, Step(t, choice)) && BeginsToClose(s.pcs[t])
    ensures Changes(s, StepOf(s, t, choice), t)
  {
    hide Trigger, TriggerEnd, BeginClose, EndClose, PrepareSources, TakenMessages;
    OnlyClosesCount(s.e, choice, s.taken);
  }

  lemma {:induction false} CloseEndChanges(s: State, t: Tid, choice: bool)
    requires Enabled(s, Step(t, choice)) && (s.pcs[t].Closing? || s.pcs[t].CloseEnd?)
    ensures Changes(s, StepOf(s, t, choice), t)
  {
    hide Trigger, TriggerEnd, BeginClose, EndClose, PrepareSources, TakenMessages;
    OnlyClosesCount(s.e, choice, s.taken);
  }

  lemma {:induction false} LeaveChanges(s: State, t: Tid, choice: bool)
    requires Enabled(s, Step(t, choice)) && Leaving(s.pcs[t])
    ensures Changes(s, StepOf(s, t, choice), t)
  {
    hide Trigger, TriggerEnd, BeginClose, EndClose, PrepareSources, TakenMessages;
    if s.pcs[t].Closing? || s.pcs[t].CloseEnd? {
      hide Changes, StepOf;
      CloseEndChanges(s, t, choice);
    }
  }

  lemma {:induction false} StepChanges(s: State, t: Tid, choice: bool)
    requires Enabled(s, Step(t, choice)) && s.pcs[t] != Broadcast
    ensures Changes(s, StepOf(s, t, choice), t)
  {
    var pc := s.pcs[t];
    hide Changes, StepOf;
    if Entering(pc) {
      EntryChanges(s, t, choice);
    } else if InHandler(pc) {
      HandlerChanges(s, t, choice);
    } else if BeginsToWait(pc) {
      WaitBeginChanges(s, t, choice);
    } else if Waits(pc) {
      WaitChanges(s, t, choice);
    } else if BeginsToClose(pc) {
      CloseBeginChanges(s, t, choice);
    } else {
      LeaveChanges(s, t, choice);
    }
  }

  /** A lock is held by the threads whose place says so, at most one. */
  lemma {:induction false} OneLock(pcs: map<Tid, Pc>, t: Tid, pc: Pc, p: Pc -> bool, lock: set<Tid>, lock': set<Tid>)
    requires t in pcs && lock == Those(pcs, p) && AtMostOne(lock) && (!p(pcs[t]) && p(pc) ==> lock == {})
    requires lock' == if p(pcs[t]) == p(pc) then lock else if p(pc) then {t} else {}
    ensures lock' == Those(pcs[t := pc], p) && AtMostOne(lock')
  {
    Move(pcs, t, pc, p);
    Belongs(pcs, t, p);
    hide Those;
    assert t in lock ==> forall u :: u in lock ==> u == t;
  }

  lemma {:induction false} OneFlag(pcs: map<Tid, Pc>, t: Tid, pc: Pc, p: Pc -> bool, flag: bool, flag': bool)
    requires t in pcs && (flag <==> Those(pcs, p) != {}) && AtMostOne(Those(pcs, p))
    requires flag' == if p(pcs[t]) == p(pc) then flag else p(pc)
    ensures flag' <==> Those(pcs[t := pc], p) != {}
  {
    Move(pcs, t, pc, p);
    Belongs(pcs, t, p);
    var ts := Those(pcs, p);
    hide Those;
    assert t in ts ==> forall u :: u in ts ==> u == t;
    assert t in ts + {t};
  }

  lemma {:induction false} LockParts(s: State)
    requires Locks(s)
    ensures s.eventsLock == Those(s.pcs, HasEventsLock) && AtMostOne(s.eventsLock)
    ensures s.waitersLock == Those(s.pcs, HasWaitersLock) && AtMostOne(s.waitersLock)
    ensures (s.handlerActive <==> Those(s.pcs, HandlerSet) != {}) && AtMostOne(Those(s.pcs, HandlerSet))
  {
    assert Those(s.pcs, HandlerSet) <= Those(s.pcs, HasEventsLock);
  }

  lemma {:induction false} StepLocks(s: State, t: Tid, choice: bool)
    requires Locks(s) && Enabled(s, Step(t, choice)) && s.pcs[t] != Broadcast
    ensures Locks(StepOf(s, t, choice))
  {
    hide Those, StepOf, AtMostOne, Enabled, HasEventsLock, HasWaitersLock, HandlerSet;
    LockParts(s);
    Moves(s, t, choice);
    StepChanges(s, t, choice);
    var s' := StepOf(s, t, choice);
    OneLock(s.pcs, t, s'.pcs[t], HasEventsLock, s.eventsLock, s'.eventsLock);
    OneLock(s.pcs, t, s'.pcs[t], HasWaitersLock, s.waitersLock, s'.waitersLock);
    OneFlag(s.pcs, t, s'.pcs[t], HandlerSet, s.handlerActive, s'.handlerActive);
  }

  lemma {:induction false} OneMoreOrLess(c: set<Tid>, t: Tid)
    ensures t !in c ==> |c + {t}| == |c| + 1 && c - {t} == c
    ensures t in c ==> |c - {t}| == |c| - 1 && c + {t} == c
  {
  }

  lemma {:induction false} StepAnnounced(s: State, t: Tid, choice: bool)
    requires Announced(s) && Enabled(s, Step(t, choice)) && s.pcs[t] != Broadcast
    ensures Announced(StepOf(s, t, choice))
  {
    hide Those, InClose, StepOf, Enabled;
    var s' := StepOf(s, t, choice);
    Moves(s, t, choice);
    Move(s.pcs, t, s'.pcs[t], InClose);
    Belongs(s.pcs, t, InClose);
    StepChanges(s, t, choice);
    OneMoreOrLess(Those(s.pcs, InClose), t);
  }

  /** A thread that has a broadcast ahead keeps it ahead. */
  lemma {:induction false} StaysWaker(s: State, t: Tid, choice: bool)
    requires Enabled(s, Step(t, choice)) && WillBroadcast(s.pcs[t]) && s.pcs[t] != Broadcast
    ensures t in StepOf(s, t, choice).pcs && WillBroadcast(StepOf(s, t, choice).pcs[t])
  {
    hide Trigger, TriggerEnd, BeginClose, EndClose, PrepareSources, TakenMessages;
  }

  /** A thread goes to sleep only having seen another handle events or close. */
  lemma {:induction false} SleepsOnlyIfWoken(s: State, t: Tid, choice: bool)
    requires Locks(s) && Announced(s) && Enabled(s, Step(t, choice)) && s.pcs[t] != Broadcast && !Sleeps(s.pcs[t])
    requires t in StepOf(s, t, choice).pcs && Sleeps(StepOf(s, t, choice).pcs[t])
    ensures Those(s.pcs, WillBroadcast) != {}
  {
    hide Trigger, TriggerEnd, BeginClose, EndClose, PrepareSources, TakenMessages;
    assert s.handlerActive || s.e.deviceClose > 0;
    if s.handlerActive {
      var u :| u in Those(s.pcs, HandlerSet);
      assert u in Those(s.pcs, WillBroadcast);
    } else {
      var u :| u in Those(s.pcs, InClose);
      assert u in Those(s.pcs, WillBroadcast);
    }
  }

  /** The heart of the matter: a thread goes to sleep only while some other thread has a broadcast ahead
      of it, and no thread gets past its broadcast while another is on its way to sleep. */
  lemma {:induction false} StepSleepers(s: State, t: Tid, choice: bool)
    requires Locks(s) && Announced(s) && SleepersHaveWaker(s) && Enabled(s, Step(t, choice)) && s.pcs[t] != Broadcast
    ensures SleepersHaveWaker(StepOf(s, t, choice))
  {
    var s' := StepOf(s, t, choice);
    Moves(s, t, choice);
    Move(s.pcs, t, s'.pcs[t], Sleeps);
    Move(s.pcs, t, s'.pcs[t], WillBroadcast);
    Belongs(s.pcs, t, WillBroadcast);
    Belongs(s.pcs, t, Sleeps);
    hide *;
    if t in Those(s.pcs, WillBroadcast) {
      StaysWaker(s, t, choice);
    } else if Sleeps(s'.pcs[t]) && !Sleeps(s.pcs[t]) {
      SleepsOnlyIfWoken(s, t, choice);
    }
  }

  /** Only the holder of the events lock can be between the two halves of handle_event_trigger. */
  lemma {:induction false} DrainIsMine(s: State, t: Tid)
    requires Locks(s) && t in s.pcs && HasEventsLock(s.pcs[t])
    ensures Those(s.pcs, InDrain) == if InDrain(s.pcs[t]) then {t} else {}
  {
    Belongs(s.pcs, t, InDrain);
    Belongs(s.pcs, t, HasEventsLock);
    assert Those(s.pcs, InDrain) <= Those(s.pcs, HasEventsLock);
    assert forall u :: u in Those(s.pcs, InDrain) ==> u == t;
  }

  lemma {:induction false} NewsIsMine(s: State, t: Tid)
    requires Locks(s) && t in s.pcs && HasEventsLock(s.pcs[t])
    ensures Those(s.pcs, HasNews) == if HasNews(s.pcs[t]) then {t} else {}
  {
    Belongs(s.pcs, t, HasNews);
    Belongs(s.pcs, t, HasEventsLock);
    assert Those(s.pcs, HasNews) <= Those(s.pcs, HasEventsLock);
    assert forall u :: u in Those(s.pcs, HasNews) ==> u == t;
  }

  /** The steps that touch the event data or the queues of the handler. */
  predicate HandlesData(pc: Pc) {
    pc.Prepare? || pc.Triggered? || HasNews(pc) || pc.CloseBegin? || pc.CloseEnd?
  }

  lemma {:induction false} AsideStep(s: State, t: Tid, choice: bool)
    requires Enabled(s, Step(t, choice)) && s.pcs[t] != Broadcast && !HandlesData(s.pcs[t])
    ensures var s' := StepOf(s, t, choice);
      && t in s.pcs && t in s'.pcs && s'.e == s.e && s'.taken == s.taken && s'.news == s.news
      && s'.handed == s.handed && s'.messages == s.messages
      && s'.everSignalled == s.everSignalled && s'.everPosted == s.everPosted
      && !InDrain(s.pcs[t]) && !InDrain(s'.pcs[t]) && !HasNews(s.pcs[t]) && !HasNews(s'.pcs[t])
  {
    hide TakenMessages, Trigger, TriggerEnd, BeginClose, EndClose, PrepareSources, WakeAll;
  }

  lemma {:induction false} PrepareConserved(s: State, t: Tid, choice: bool)
    requires Locks(s) && Conserved(s) && Enabled(s, Step(t, choice)) && s.pcs[t].Prepare?
    ensures Conserved(StepOf(s, t, choice))
  {
    hide TakenMessages, Trigger, TriggerEnd, BeginClose, EndClose, PrepareSources;
    var s' := StepOf(s, t, choice);
    Moves(s, t, choice);
    Move(s.pcs, t, s'.pcs[t], InDrain);
    Move(s.pcs, t, s'.pcs[t], HasNews);
    DrainIsMine(s, t);
    NewsIsMine(s, t);
    HandlerKeepsAgreement(s.e, choice, []);
    Queues(s.e, choice, []);
    hide Those, Locks, Agree;
  }

  lemma {:induction false} CloseStep(s: State, t: Tid, choice: bool)
    requires Enabled(s, Step(t, choice)) && (s.pcs[t].CloseBegin? || s.pcs[t].CloseEnd?)
    ensures var s' := StepOf(s, t, choice);
      && t in s.pcs && t in s'.pcs && s' == s.(pcs := s.pcs[t := s'.pcs[t]], e := s'.e)
      && !HasNews(s.pcs[t]) && !HasNews(s'.pcs[t]) && !InDrain(s.pcs[t]) && !InDrain(s'.pcs[t])
      && (s.pcs[t].CloseBegin? ==> s'.e == BeginClose(s.e))
      && (s.pcs[t].CloseEnd? ==> s.e.deviceClose > 0 && s'.e == EndClose(s.e))
  {
    hide BeginClose, EndClose;
  }

  lemma {:induction false} ConservedParts(s: State)
    requires Conserved(s)
    ensures Agree(s.e, Those(s.pcs, InDrain) != {}) && (s.taken != [] ==> Those(s.pcs, InDrain) != {})
    ensures s.news != [] ==> Those(s.pcs, HasNews) != {}
    ensures s.handed + s.taken + s.e.completed == s.everSignalled
    ensures s.messages + s.news + s.e.hotplugMsgs == s.everPosted
  {
  }

  lemma {:induction false} ConservedWhole(s: State, draining: bool)
    requires draining <==> Those(s.pcs, InDrain) != {}
    requires Agree(s.e, draining) && (s.taken != [] ==> draining) && (s.news != [] ==> Those(s.pcs, HasNews) != {})
    requires s.handed + s.taken + s.e.completed == s.everSignalled
    requires s.messages + s.news + s.e.hotplugMsgs == s.everPosted
    ensures Conserved(s)
  {
  }

  lemma {:induction false} MoveNeutral(pcs: map<Tid, Pc>, t: Tid, pc: Pc, p: Pc -> bool)
    requires t in pcs && p(pcs[t]) == p(pc)
    ensures Those(pcs[t := pc], p) == Those(pcs, p)
  {
  }

  lemma {:induction false} OtherStepConserved(s: State, t: Tid, choice: bool)
    requires Conserved(s) && Enabled(s, Step(t, choice)) && s.pcs[t] != Broadcast && !HandlesData(s.pcs[t])
    ensures Conserved(StepOf(s, t, choice))
  {
    hide *;
    var s' := StepOf(s, t, choice);
    AsideStep(s, t, choice);
    Moves(s, t, choice);
    ConservedParts(s);
    MoveNeutral(s.pcs, t, s'.pcs[t], InDrain);
    MoveNeutral(s.pcs, t, s'.pcs[t], HasNews);
    ConservedWhole(s', Those(s.pcs, InDrain) != {});
  }

  lemma {:induction false} CloseConserved(s: State, t: Tid, choice: bool)
    requires Conserved(s) && Enabled(s, Step(t, choice)) && (s.pcs[t].CloseBegin? || s.pcs[t].CloseEnd?)
    ensures Conserved(StepOf(s, t, choice))
  {
    hide *;
    var s', draining := StepOf(s, t, choice), Those(s.pcs, InDrain) != {};
    CloseStep(s, t, choice);
    ConservedParts(s);
    MoveNeutral(s.pcs, t, s'.pcs[t], InDrain);
    MoveNeutral(s.pcs, t, s'.pcs[t], HasNews);
    RaiseKeepsAgreement(s.e, USER_INTERRUPT, 0, 0, draining);
    Queues(s.e, choice, []);
    ConservedWhole(s', draining);
  }

  lemma {:induction false} TriggerStep(s: State, t: Tid, choice: bool)
    requires Enabled(s, Step(t, choice)) && s.pcs[t].Triggered?
    ensures StepOf(s, t, choice) == s.(
      pcs := s.pcs[t := if TRANSFER_COMPLETED in s.e.flags then Drain else Dispatch(false)], e := Trigger(s.e),
      taken := if TRANSFER_COMPLETED in s.e.flags then s.e.completed else [],
      news := TakenMessages(s.e))
  {
    hide Trigger, TakenMessages;
  }

  /** How items pass along the queues. */
  lemma {:induction false} Along<T>(handed: seq<T>, taken: seq<T>, rest: seq<T>)
    ensures handed + [] + (taken + rest) == handed + taken + rest && handed + [] + rest == handed + rest + []
    ensures (handed + taken) + rest == handed + (taken + rest)
    ensures taken != [] ==> (handed + [taken[0]]) + taken[1..] == handed + taken
  {
  }

  lemma {:induction false} TriggerStepConserved(s: State, t: Tid, choice: bool)
    requires Locks(s) && Conserved(s) && Enabled(s, Step(t, choice)) && s.pcs[t].Triggered?
    ensures Conserved(StepOf(s, t, choice))
  {
    assert HasEventsLock(s.pcs[t]) && !InDrain(s.pcs[t]) && InDrain(Drain) && !InDrain(Dispatch(false));
    assert !HasNews(s.pcs[t]) && HasNews(Drain) && HasNews(Dispatch(false));
    hide *;
    var s' := StepOf(s, t, choice);
    TriggerStep(s, t, choice);
    ConservedParts(s);
    Move(s.pcs, t, s'.pcs[t], InDrain);
    Move(s.pcs, t, s'.pcs[t], HasNews);
    DrainIsMine(s, t);
    NewsIsMine(s, t);
    HandlerKeepsAgreement(s.e, choice, []);
    Queues(s.e, choice, []);
    Along(s.handed, [], s.e.completed);
    Along(s.messages, TakenMessages(s.e), Trigger(s.e).hotplugMsgs);
    Along(s.messages, [], s.e.hotplugMsgs);
    ConservedWhole(s', TRANSFER_COMPLETED in s.e.flags);
  }

  lemma {:induction false} DrainStep(s: State, t: Tid, choice: bool)
    requires Enabled(s, Step(t, choice)) && s.pcs[t].Drain?
    ensures var s', moved := StepOf(s, t, choice), s.taken != [];
      && s'.pcs == s.pcs[t := s'.pcs[t]] && t in s'.pcs && InDrain(s'.pcs[t]) && HasNews(s'.pcs[t])
      && s'.e == s.e && s'.news == s.news
      && s'.handed == (if moved then s.handed + [s.taken[0]] else s.handed)
      && s'.taken == (if moved then s.taken[1..] else s.taken)
      && s'.messages == s.messages && s'.everSignalled == s.everSignalled && s'.everPosted == s.everPosted
  {
  }

  lemma {:induction false} DrainStepConserved(s: State, t: Tid, choice: bool)
    requires Locks(s) && Conserved(s) && Enabled(s, Step(t, choice)) && s.pcs[t].Drain?
    ensures Conserved(StepOf(s, t, choice))
  {
    assert HasEventsLock(s.pcs[t]) && InDrain(s.pcs[t]);
    hide *;
    var s' := StepOf(s, t, choice);
    DrainStep(s, t, choice);
    ConservedParts(s);
    Move(s.pcs, t, s'.pcs[t], InDrain);
    Move(s.pcs, t, s'.pcs[t], HasNews);
    DrainIsMine(s, t);
    NewsIsMine(s, t);
    Along(s.handed, s.taken, s.e.completed);
    ConservedWhole(s', true);
  }

  lemma {:induction false} DrainEndStep(s: State, t: Tid, choice: bool)
    requires Enabled(s, Step(t, choice)) && s.pcs[t].DrainEnd?
    ensures var s' := StepOf(s, t, choice);
      && s'.pcs == s.pcs[t := s'.pcs[t]] && t in s'.pcs && !InDrain(s'.pcs[t]) && HasNews(s'.pcs[t])
      && s'.e == TriggerEnd(s.e, s.taken) && s'.news == s.news
      && s'.handed == s.handed && s'.taken == []
      && s'.messages == s.messages && s'.everSignalled == s.everSignalled && s'.everPosted == s.everPosted
  {
    hide TriggerEnd;
  }

  lemma {:induction false} DrainEndConserved(s: State, t: Tid, choice: bool)
    requires Locks(s) && Conserved(s) && Enabled(s, Step(t, choice)) && s.pcs[t].DrainEnd?
    ensures Conserved(StepOf(s, t, choice))
  {
    assert HasEventsLock(s.pcs[t]) && InDrain(s.pcs[t]);
    hide *;
    var s' := StepOf(s, t, choice);
    DrainEndStep(s, t, choice);
    ConservedParts(s);
    Move(s.pcs, t, s'.pcs[t], InDrain);
    Move(s.pcs, t, s'.pcs[t], HasNews);
    DrainIsMine(s, t);
    NewsIsMine(s, t);
    HandlerKeepsAgreement(s.e, choice, s.taken);
    Queues(s.e, choice, s.taken);
    Along(s.handed, s.taken, s.e.completed);
    ConservedWhole(s', false);
  }

  lemma {:induction false} DispatchStep(s: State, t: Tid, choice: bool)
    requires Enabled(s, Step(t, choice)) && s.pcs[t].Dispatch?
    ensures var s' := StepOf(s, t, choice);
      && t in s'.pcs && !HasNews(s'.pcs[t]) && !InDrain(s'.pcs[t])
      && s' == s.(pcs := s.pcs[t := s'.pcs[t]], messages := s.messages + s.news, news := [])
  {
  }

  lemma {:induction false} DispatchConserved(s: State, t: Tid, choice: bool)
    requires Locks(s) && Conserved(s) && Enabled(s, Step(t, choice)) && s.pcs[t].Dispatch?
    ensures Conserved(StepOf(s, t, choice))
  {
    assert HasEventsLock(s.pcs[t]) && HasNews(s.pcs[t]) && !InDrain(s.pcs[t]);
    hide *;
    var s' := StepOf(s, t, choice);
    DispatchStep(s, t, choice);
    ConservedParts(s);
    Move(s.pcs, t, s'.pcs[t], InDrain);
    DrainIsMine(s, t);
    Along(s.messages + s.news, [], s.e.hotplugMsgs);
    ConservedWhole(s', false);
  }

  lemma {:induction false} BroadcastKeeps(s: State, t: Tid, p: Pc -> bool)
    requires t in s.pcs && s.pcs[t] == Broadcast && p(Asleep) == p(Woken) && p(Idle) == p(Broadcast)
    ensures Those(WakeAll(s.pcs)[t := Idle], p) == Those(s.pcs, p)
  {
  }

  lemma {:induction false} NobodySleeps(s: State, t: Tid)
    requires Locks(s) && t in s.pcs && s.pcs[t] == Broadcast && s.waitersLock == {}
    ensures Those(WakeAll(s.pcs)[t := Idle], Sleeps) == {}
  {
    var pcs := WakeAll(s.pcs)[t := Idle];
    forall u | u in pcs
      ensures !Sleeps(pcs[u])
    {
      Belongs(s.pcs, u, HasWaitersLock);
    }
  }

  lemma {:induction false} BroadcastKeepsAll(s: State, t: Tid)
    requires t in s.pcs && s.pcs[t] == Broadcast
    ensures var pcs := WakeAll(s.pcs)[t := Idle];
      && Those(pcs, HasEventsLock) == Those(s.pcs, HasEventsLock)
      && Those(pcs, HasWaitersLock) == Those(s.pcs, HasWaitersLock)
      && Those(pcs, HandlerSet) == Those(s.pcs, HandlerSet) && Those(pcs, InClose) == Those(s.pcs, InClose)
      && Those(pcs, InDrain) == Those(s.pcs, InDrain) && Those(pcs, HasNews) == Those(s.pcs, HasNews)
  {
    hide WakeAll, Those;
    BroadcastKeeps(s, t, HasEventsLock);
    BroadcastKeeps(s, t, HasWaitersLock);
    BroadcastKeeps(s, t, HandlerSet);
    BroadcastKeeps(s, t, InClose);
    BroadcastKeeps(s, t, InDrain);
    BroadcastKeeps(s, t, HasNews);
  }

  /** The invariant looks at where threads are only through these sets. */
  lemma {:induction false} InvBySets(s: State, pcs: map<Tid, Pc>)
    requires Inv(s) && (Those(pcs, Sleeps) != {} ==> Those(pcs, WillBroadcast) != {})
    requires Those(pcs, HasEventsLock) == Those(s.pcs, HasEventsLock)
    requires Those(pcs, HasWaitersLock) == Those(s.pcs, HasWaitersLock)
    requires Those(pcs, HandlerSet) == Those(s.pcs, HandlerSet) && Those(pcs, InClose) == Those(s.pcs, InClose)
    requires Those(pcs, InDrain) == Those(s.pcs, InDrain) && Those(pcs, HasNews) == Those(s.pcs, HasNews)
    ensures Inv(s.(pcs := pcs))
  {
    hide Those, Agree, AtMostOne, HasEventsLock, HasWaitersLock, HandlerSet, InClose, InDrain, HasNews;
    hide Sleeps, WillBroadcast;
  }

  /** A broadcast leaves nobody asleep, nor on the way there. */
  lemma {:induction false} BroadcastInv(s: State, t: Tid, choice: bool)
    requires Inv(s) && Enabled(s, Step(t, choice)) && s.pcs[t] == Broadcast
    ensures Inv(StepOf(s, t, choice))
  {
    var pcs := WakeAll(s.pcs)[t := Idle];
    assert StepOf(s, t, choice) == s.(pcs := pcs) && s.waitersLock == {};
    assert Locks(s);
    hide *;
    BroadcastKeepsAll(s, t);
    NobodySleeps(s, t);
    InvBySets(s, pcs);
  }

  lemma {:induction false} StepConserved(s: State, t: Tid, choice: bool)
    requires Inv(s) && Enabled(s, Step(t, choice)) && s.pcs[t] != Broadcast
    ensures Conserved(StepOf(s, t, choice))
  {
    match s.pcs[t]
    case Prepare => PrepareConserved(s, t, choice);
    case Triggered => TriggerStepConserved(s, t, choice);
    case Drain => DrainStepConserved(s, t, choice);
    case DrainEnd(_) => DrainEndConserved(s, t, choice);
    case Dispatch(_) => DispatchConserved(s, t, choice);
    case CloseBegin => CloseConserved(s, t, choice);
    case CloseEnd => CloseConserved(s, t, choice);
    case _ => OtherStepConserved(s, t, choice);
  }

  lemma {:induction false} StepInv(s: State, t: Tid, choice: bool)
    requires Inv(s) && Enabled(s, Step(t, choice))
    ensures Inv(StepOf(s, t, choice))
  {
    hide Locks, Announced, SleepersHaveWaker, Conserved, StepOf, Those;
    if s.pcs[t] == Broadcast {
      BroadcastInv(s, t, choice);
    } else {
      StepLocks(s, t, choice);
      StepAnnounced(s, t, choice);
      StepSleepers(s, t, choice);
      StepConserved(s, t, choice);
    }
  }

  /** Entering, or giving up waiting. */
  lemma {:induction false} EnterInv(s: State, t: Tid, pc: Pc)
    requires Inv(s) && t in s.pcs
    requires (s.pcs[t] == Idle && (pc == TryClose || pc == CloseBegin)) || (s.pcs[t] == Asleep && pc == Woken)
    ensures Inv(Goto(s, t, pc))
  {
    assert SleepersHaveWaker(s);
    hide Inv, Those;
    MoveNeutral(s.pcs, t, pc, HasEventsLock);
    MoveNeutral(s.pcs, t, pc, HasWaitersLock);
    MoveNeutral(s.pcs, t, pc, HandlerSet);
    MoveNeutral(s.pcs, t, pc, InClose);
    MoveNeutral(s.pcs, t, pc, InDrain);
    MoveNeutral(s.pcs, t, pc, HasNews);
    MoveNeutral(s.pcs, t, pc, WillBroadcast);
    Move(s.pcs, t, pc, Sleeps);
    InvBySets(s, s.pcs[t := pc]);
  }

  lemma {:induction false} ThreadsAside(s: State, s': State)
    requires Inv(s) && s' == s.(e := s'.e, everSignalled := s'.everSignalled, everPosted := s'.everPosted)
    requires s'.e.deviceClose == s.e.deviceClose && Conserved(s')
    ensures Inv(s')
  {
    hide Those, AtMostOne, Conserved;
  }

  /** Anyone may raise an event at any time. */
  lemma {:induction false} SignalInv(s: State, x: Id)
    requires Inv(s)
    ensures Inv(Next(s, Signal(x)))
  {
    hide Those, Agree, Locks, Announced, SleepersHaveWaker;
    RaiseKeepsAgreement(s.e, USER_INTERRUPT, x, 0, Those(s.pcs, InDrain) != {});
    var s' := Next(s, Signal(x));
    assert s'.handed + s'.taken + s'.e.completed == s.handed + s.taken + s.e.completed + [x];
    ThreadsAside(s, s');
  }

  lemma {:induction false} PostInv(s: State, m: Message)
    requires Inv(s)
    ensures Inv(Next(s, Post(m)))
  {
    hide Those, Agree, Locks, Announced, SleepersHaveWaker;
    RaiseKeepsAgreement(s.e, USER_INTERRUPT, 0, m, Those(s.pcs, InDrain) != {});
    var s' := Next(s, Post(m));
    assert s'.messages + s'.news + s'.e.hotplugMsgs == s.messages + s.news + s.e.hotplugMsgs + [m];
    ThreadsAside(s, s');
  }

  lemma {:induction false} NotifyInv(s: State, f: Flag)
    requires Inv(s) && Enabled(s, Notify(f))
    ensures Inv(Next(s, Notify(f)))
  {
    hide Those, Agree, Locks, Announced, SleepersHaveWaker;
    RaiseKeepsAgreement(s.e, f, 0, 0, Those(s.pcs, InDrain) != {});
    ThreadsAside(s, Next(s, Notify(f)));
  }

  /** Every action keeps the invariant. */
  lemma {:induction false} NextInv(s: State, a: Action)
    requires Inv(s) && Enabled(s, a)
    ensures Inv(Next(s, a))
  {
    hide Inv, StepOf;
    match a
    case HandleEvents(t) => EnterInv(s, t, TryClose);
    case CloseHandle(t) => EnterInv(s, t, CloseBegin);
    case TimeOut(t) => EnterInv(s, t, Woken);
    case Step(t, choice) => StepInv(s, t, choice);
    case Signal(x) => SignalInv(s, x);
    case Post(m) => PostInv(s, m);
    case Notify(f) => NotifyInv(s, f);
  }

  lemma {:induction false} RunInv(s: State, run: seq<Action>)
    requires Inv(s) && CanRun(s, run)
    ensures Inv(Run(s, run))
    decreases |run|
  {
    hide Inv, Next;
    if run != [] {
      NextInv(s, run[0]);
      RunInv(Next(s, run[0]), run[1..]);
    }
  }

  lemma {:induction false} InitialInv(s: State)
    requires Initial(s)
    ensures Inv(s)
  {
    assert Those(s.pcs, InClose) == {};
  }

  /** In every interleaving, whenever a thread is asleep some other thread has a broadcast ahead of it. */
  lemma {:induction false} NoLostWakeup(s: State, run: seq<Action>)
    requires Initial(s) && CanRun(s, run)
    ensures var s' := Run(s, run);
      forall t :: t in s'.pcs && s'.pcs[t] == Asleep ==> exists u :: u in s'.pcs && u != t && WillBroadcast(s'.pcs[u])
  {
    InitialInv(s);
    RunInv(s, run);
    var s' := Run(s, run);
    hide Locks, Announced, Conserved, Run, CanRun;
    forall t | t in s'.pcs && s'.pcs[t] == Asleep
      ensures exists u :: u in s'.pcs && u != t && WillBroadcast(s'.pcs[u])
    {
      assert t in Those(s'.pcs, Sleeps);
      var u :| u in Those(s'.pcs, WillBroadcast);
    }
  }

  /** In every interleaving at most one thread is inside handle_events or do_close. */
  lemma {:induction false} MutualExclusion(s: State, run: seq<Action>, t: Tid, u: Tid)
    requires Initial(s) && CanRun(s, run)
    requires var s' := Run(s, run);
      && t in s'.pcs && (InHandler(s'.pcs[t]) || s'.pcs[t].Closing?)
      && u in s'.pcs && (InHandler(s'.pcs[u]) || s'.pcs[u].Closing?)
    ensures t == u
  {
    InitialInv(s);
    RunInv(s, run);
    var s' := Run(s, run);
    Belongs(s'.pcs, t, HasEventsLock);
    Belongs(s'.pcs, u, HasEventsLock);
  }

  lemma {:induction false} SomeoneDrains(pcs: map<Tid, Pc>)
    ensures Those(pcs, InDrain) != {} <==> exists t :: t in pcs && InDrain(pcs[t])
  {
    if t :| t in pcs && InDrain(pcs[t]) {
      assert t in Those(pcs, InDrain);
    }
  }

  /** In every interleaving the event is signalled exactly while something is pending, and the flags tell the truth:
      about closes, about hotplug messages and, but for a handler that has taken the transfers over and not
      finished, about completed transfers. So no handler can block in the wait while a close is announced, and
      the handler finds messages and transfers exactly where the flags promise them. */
  lemma {:induction false} FlagsTellTheTruth(s: State, run: seq<Action>)
    requires Initial(s) && CanRun(s, run)
    ensures var s' := Run(s, run);
      && (s'.e.signalled <==> s'.e.flags != {})
      && (s'.e.deviceClose > 0 <==> DEVICE_CLOSE in s'.e.flags)
      && (s'.e.deviceClose > 0 ==> s'.e.signalled)
      && s'.e.deviceClose == |Those(s'.pcs, InClose)|
      && (s'.e.hotplugMsgs != [] <==> HOTPLUG_MSG_PENDING in s'.e.flags)
      && (s'.e.completed != [] || (exists t :: t in s'.pcs && InDrain(s'.pcs[t])) <==> TRANSFER_COMPLETED in s'.e.flags)
      && forall t :: t in s'.pcs && s'.pcs[t].Triggered? ==>
         (TRANSFER_COMPLETED in s'.e.flags <==> s'.e.completed != [])
  {
    InitialInv(s);
    RunInv(s, run);
    var s' := Run(s, run);
    hide Run, CanRun, SleepersHaveWaker;
    SomeoneDrains(s'.pcs);
    forall t | t in s'.pcs && s'.pcs[t].Triggered?
      ensures TRANSFER_COMPLETED in s'.e.flags <==> s'.e.completed != []
    {
      DrainIsMine(s', t);
    }
  }

  /** Over every run the backend is handed the completed transfers, and the dispatcher the hotplug
      messages, in the order they were signalled, each once and none left out. */
  lemma {:induction false} DeliveredInOrder(s: State, run: seq<Action>)
    requires Initial(s) && CanRun(s, run)
    ensures var s' := Run(s, run);
      && s'.handed + s'.taken + s'.e.completed == s'.everSignalled
      && s'.handed <= s'.everSignalled
      && s'.messages + s'.news + s'.e.hotplugMsgs == s'.everPosted
      && s'.messages <= s'.everPosted
  {
    InitialInv(s);
    RunInv(s, run);
  }

  // Why a sleeper can always be woken: what is left to do before a broadcast.

  /** Steps until the waiters lock is given back. */
  function WaiterSteps(pc: Pc): nat {
    match pc
    case ActiveClose => 3
    case CheckDone => 2
    case ActiveRead => 2
    case _ => 1
  }

  /** Steps until the events lock is given back, if the wait for events returns. */
  function HandlerSteps(s: State, pc: Pc): nat {
    match pc
    case Unlock => 1
    case ClearActive => 2
    case CloseEnd => 3
    case Closing => 4
    case Process => 3
    case Dispatch(_) => 4
    case DrainEnd(_) => 5
    case Drain => 6 + |s.taken|
    case Triggered => 7 + |s.e.completed|
    case Poll => 8 + |s.e.completed|
    case Prepare => 9 + |s.e.completed|
    case SetActive => 10 + |s.e.completed|
    case _ => 5
  }

  /** A run in which threads of the machine just go on: nobody enters, times out or raises an event. */
  ghost predicate StepsOnly(run: seq<Action>) {
    forall i :: 0 <= i < |run| ==> run[i].Step?
  }

  /** `a` then `run`, as one run. */
  lemma {:induction false} Prepend(s: State, a: Action, run: seq<Action>)
    requires Enabled(s, a) && CanRun(Next(s, a), run)
    ensures CanRun(s, [a] + run) && Run(s, [a] + run) == Run(Next(s, a), run)
  {
    assert ([a] + run)[1..] == run;
  }

  lemma {:induction false} Append(s: State, run: seq<Action>, more: seq<Action>)
    requires CanRun(s, run) && CanRun(Run(s, run), more)
    ensures CanRun(s, run + more) && Run(s, run + more) == Run(Run(s, run), more)
    decreases |run|
  {
    if run == [] {
      assert run + more == more;
    } else {
      assert (run + more)[1..] == run[1..] + more;
      Append(Next(s, run[0]), run[1..], more);
    }
  }

  lemma {:induction false} WaiterStep(s: State, w: Tid)
    requires w in s.pcs && HasWaitersLock(s.pcs[w])
    ensures Enabled(s, Step(w, true))
    ensures var s' := Next(s, Step(w, true));
      && w in s'.pcs && s' == s.(pcs := s.pcs[w := s'.pcs[w]], waitersLock := s'.waitersLock)
      && (s'.waitersLock == {} || (s'.waitersLock == s.waitersLock && WaiterSteps(s'.pcs[w]) < WaiterSteps(s.pcs[w])))
      && WaiterSteps(s.pcs[w]) >= 1 && !s.pcs[w].Asleep?
  {
    hide Trigger, TriggerEnd, BeginClose, EndClose, PrepareSources, TakenMessages;
  }

  lemma {:induction false} HoldsIt(s: State, w: Tid)
    requires Inv(s) && w in s.waitersLock
    ensures w in s.pcs && HasWaitersLock(s.pcs[w])
  {
    assert w in Those(s.pcs, HasWaitersLock);
  }

  lemma {:induction false} NoSteps(s: State)
    ensures CanRun(s, []) && Run(s, []) == s && StepsOnly([])
  {
  }

  lemma {:induction false} StepFirst(a: Action, run: seq<Action>)
    requires a.Step? && StepsOnly(run)
    ensures StepsOnly([a] + run)
  {
  }

  /** The waiters lock is given back in at most three steps of its holder, who changes nothing else. */
  lemma {:induction false} FreeWaitersLock(s: State, t: Tid, w: Tid) returns (run: seq<Action>)
    requires Inv(s) && t in s.pcs && s.pcs[t] == Asleep && w in s.waitersLock
    ensures StepsOnly(run) && CanRun(s, run) && w in s.pcs && |run| <= WaiterSteps(s.pcs[w])
    ensures var s' := Run(s, run);
      s' == s.(pcs := s'.pcs, waitersLock := {}) && t in s'.pcs && s'.pcs[t] == Asleep
    decreases if w in s.pcs then WaiterSteps(s.pcs[w]) else 0
  {
    HoldsIt(s, w);
    hide *;
    WaiterStep(s, w);
    var a := Step(w, true);
    var s1 := Next(s, a);
    run := [];
    if s1.waitersLock != {} {
      NextInv(s, a);
      run := FreeWaitersLock(s1, t, w);
    } else {
      NoSteps(s1);
    }
    Prepend(s, a, run);
    StepFirst(a, run);
    run := [a] + run;
  }

  lemma {:induction false} CloseWasAnnounced(s: State, h: Tid)
    requires Announced(s) && h in s.pcs && InClose(s.pcs[h])
    ensures s.e.deviceClose > 0
  {
    assert h in Those(s.pcs, InClose);
  }

  /** Nothing blocks the holder of the events lock. */
  lemma {:induction false} HolderCanStep(s: State, h: Tid)
    requires Inv(s) && h in s.eventsLock
    ensures h in s.pcs && HasEventsLock(s.pcs[h]) && Enabled(s, Step(h, s.pcs[h] != SetActive))
  {
    Belongs(s.pcs, h, HasEventsLock);
    if InClose(s.pcs[h]) { CloseWasAnnounced(s, h); }
  }

  lemma {:induction false} UnlockAndBroadcast(s: State, t: Tid, h: Tid) returns (run: seq<Action>)
    requires t in s.pcs && s.pcs[t] == Asleep && h in s.pcs && s.pcs[h] == Unlock && s.waitersLock == {}
    ensures StepsOnly(run) && CanRun(s, run) && |run| == 2
    ensures t in Run(s, run).pcs && Run(s, run).pcs[t] == Woken
  {
    var a := Step(h, true);
    var s1 := Next(s, a);
    Prepend(s1, a, []);
    Prepend(s, a, [a]);
    run := [a] + [a];
    assert [a] + [] == [a];
  }

  lemma {:induction false} TowardsUnlock(s: State, t: Tid, h: Tid)
    requires t in s.pcs && s.pcs[t] == Asleep && h in s.pcs && HasEventsLock(s.pcs[h]) && s.pcs[h] != Unlock
    requires Enabled(s, Step(h, s.pcs[h] != SetActive))
    ensures var s' := StepOf(s, h, s.pcs[h] != SetActive);
      s'.waitersLock == s.waitersLock && s'.eventsLock == s.eventsLock && t in s'.pcs && s'.pcs[t] == Asleep
  {
    hide Trigger, TriggerEnd, BeginClose, EndClose, PrepareSources, TakenMessages;
  }

  lemma {:induction false} CloserBefore(s: State, h: Tid, choice: bool)
    requires h in s.pcs && InHandler(s.pcs[h]) && !HasNews(s.pcs[h]) && Enabled(s, Step(h, choice))
    ensures var s' := StepOf(s, h, choice);
      h in s'.pcs && HandlerSteps(s', s'.pcs[h]) < HandlerSteps(s, s.pcs[h])
  {
    hide Trigger, TriggerEnd, BeginClose, EndClose, PrepareSources, TakenMessages, HasEventsLock;
    Queues(s.e, choice, s.taken);
  }

  lemma {:induction false} CloserWithNews(s: State, h: Tid, choice: bool)
    requires h in s.pcs && HasNews(s.pcs[h]) && Enabled(s, Step(h, choice))
    ensures var s' := StepOf(s, h, choice);
      h in s'.pcs && HandlerSteps(s', s'.pcs[h]) < HandlerSteps(s, s.pcs[h])
  {
    hide Trigger, TriggerEnd, BeginClose, EndClose, PrepareSources, TakenMessages, HasEventsLock;
  }

  lemma {:induction false} CloserInHandler(s: State, h: Tid, choice: bool)
    requires h in s.pcs && InHandler(s.pcs[h]) && Enabled(s, Step(h, choice))
    ensures var s' := StepOf(s, h, choice);
      h in s'.pcs && HandlerSteps(s', s'.pcs[h]) < HandlerSteps(s, s.pcs[h])
  {
    hide StepOf, HandlerSteps, Enabled;
    if HasNews(s.pcs[h]) {
      CloserWithNews(s, h, choice);
    } else {
      CloserBefore(s, h, choice);
    }
  }

  lemma {:induction false} CloserOutside(s: State, h: Tid, choice: bool)
    requires h in s.pcs && HasEventsLock(s.pcs[h]) && !InHandler(s.pcs[h]) && s.pcs[h] != Unlock
    requires Enabled(s, Step(h, choice))
    ensures var s' := StepOf(s, h, choice);
      h in s'.pcs && HandlerSteps(s', s'.pcs[h]) < HandlerSteps(s, s.pcs[h])
  {
    hide BeginClose, EndClose;
  }

  lemma {:induction false} KeepsEventsLock(s: State, h: Tid, choice: bool)
    requires h in s.pcs && HasEventsLock(s.pcs[h]) && s.pcs[h] != Unlock && Enabled(s, Step(h, choice))
    ensures h in StepOf(s, h, choice).pcs && HasEventsLock(StepOf(s, h, choice).pcs[h])
  {
    hide Trigger, TriggerEnd, BeginClose, EndClose, PrepareSources, TakenMessages;
  }

  /** Whatever happens on the way, each step takes the holder closer to giving the events lock back. */
  lemma {:induction false} CloserToUnlock(s: State, h: Tid, choice: bool)
    requires h in s.pcs && HasEventsLock(s.pcs[h]) && s.pcs[h] != Unlock && Enabled(s, Step(h, choice))
    ensures var s' := StepOf(s, h, choice);
      h in s'.pcs && HasEventsLock(s'.pcs[h]) && HandlerSteps(s', s'.pcs[h]) < HandlerSteps(s, s.pcs[h])
  {
    hide *;
    KeepsEventsLock(s, h, choice);
    if InHandler(s.pcs[h]) {
      CloserInHandler(s, h, choice);
    } else {
      CloserOutside(s, h, choice);
    }
  }

  /** The holder of the events lock gives it back and broadcasts. */
  lemma {:induction false} LetGo(s: State, t: Tid, h: Tid) returns (run: seq<Action>)
    requires Inv(s) && t in s.pcs && s.pcs[t] == Asleep && h in s.eventsLock && s.waitersLock == {}
    ensures StepsOnly(run) && CanRun(s, run) && h in s.pcs && |run| <= 1 + HandlerSteps(s, s.pcs[h])
    ensures t in Run(s, run).pcs && Run(s, run).pcs[t] == Woken
    decreases if h in s.pcs then HandlerSteps(s, s.pcs[h]) else 0
  {
    hide Inv, StepOf, Enabled;
    HolderCanStep(s, h);
    if s.pcs[h] == Unlock {
      run := UnlockAndBroadcast(s, t, h);
    } else {
      var a := Step(h, s.pcs[h] != SetActive);
      NextInv(s, a);
      TowardsUnlock(s, t, h);
      CloserToUnlock(s, h, s.pcs[h] != SetActive);
      run := LetGo(Next(s, a), t, h);
      Prepend(s, a, run);
      run := [a] + run;
    }
  }

  // How soon a sleeper is woken, whatever the threads do.

  predicate IsStepOf(a: Action, h: Tid) {
    a.Step? && a.t == h
  }

  /** How many of the steps of a run are steps of `h`, and how many transfers are signalled in it. */
  ghost function StepsBy(run: seq<Action>, h: Tid): nat {
    if run == [] then 0 else (if IsStepOf(run[0], h) then 1 else 0) + StepsBy(run[1..], h)
  }

  ghost function Signals(run: seq<Action>): nat {
    if run == [] then 0 else (if run[0].Signal? then 1 else 0) + Signals(run[1..])
  }

  /** At some point of the run `h` broadcasts. */
  ghost predicate Broadcasts(s: State, run: seq<Action>, h: Tid)
    requires CanRun(s, run)
    decreases |run|
  {
    run != [] && ((h in s.pcs && s.pcs[h] == Broadcast && IsStepOf(run[0], h))
      || Broadcasts(Next(s, run[0]), run[1..], h))
  }

  /** At some point of the run `t` is not asleep. */
  ghost predicate Awakes(s: State, run: seq<Action>, t: Tid)
    requires CanRun(s, run)
    decreases |run|
  {
    (t in s.pcs && s.pcs[t] != Asleep) || (run != [] && Awakes(Next(s, run[0]), run[1..], t))
  }

  /** The steps up to and including the broadcast. */
  function BroadcastSteps(s: State, pc: Pc): nat {
    if pc == Broadcast then 1 else 1 + HandlerSteps(s, pc)
  }

  /** Holding the events lock, or having just given it back. */
  predicate Leads(s: State, h: Tid) {
    h in s.pcs && (HasEventsLock(s.pcs[h]) || s.pcs[h] == Broadcast)
  }

  lemma {:induction false} UnlockStep(s: State, h: Tid, choice: bool)
    requires h in s.pcs && s.pcs[h] == Unlock && Enabled(s, Step(h, choice))
    ensures h in StepOf(s, h, choice).pcs && StepOf(s, h, choice).pcs[h] == Broadcast
    ensures BroadcastSteps(s, Unlock) == 2 && BroadcastSteps(StepOf(s, h, choice), Broadcast) == 1
    ensures HasEventsLock(Unlock)
  {
  }

  lemma {:induction false} BroadcastStepsIs(s: State, pc: Pc)
    ensures BroadcastSteps(s, pc) == if pc == Broadcast then 1 else 1 + HandlerSteps(s, pc)
    ensures HasEventsLock(pc) ==> pc != Broadcast
  {
    hide HandlerSteps;
  }

  lemma {:induction false} LeadsIff(s: State, h: Tid)
    ensures Leads(s, h) <==> h in s.pcs && (HasEventsLock(s.pcs[h]) || s.pcs[h] == Broadcast)
  {
  }

  /** A step of the thread in the lead takes it closer to its broadcast. */
  lemma {:induction false} OwnStep(s: State, h: Tid, choice: bool)
    requires Leads(s, h) && s.pcs[h] != Broadcast && Enabled(s, Step(h, choice))
    ensures var s' := StepOf(s, h, choice);
      Leads(s', h) && BroadcastSteps(s', s'.pcs[h]) < BroadcastSteps(s, s.pcs[h])
  {
    hide *;
    LeadsIff(s, h);
    var s' := StepOf(s, h, choice);
    LeadsIff(s', h);
    if s.pcs[h] == Unlock {
      UnlockStep(s, h, choice);
    } else {
      CloserToUnlock(s, h, choice);
      BroadcastStepsIs(s, s.pcs[h]);
      BroadcastStepsIs(s', s'.pcs[h]);
    }
  }

  lemma {:induction false} BroadcastIs(s: State, t: Tid, choice: bool)
    requires Enabled(s, Step(t, choice)) && s.pcs[t] == Broadcast
    ensures t in s.pcs && StepOf(s, t, choice) == s.(pcs := WakeAll(s.pcs)[t := Idle])
  {
  }

  lemma {:induction false} AwakeStays(pcs: map<Tid, Pc>, t: Tid, h: Tid)
    requires h in pcs && h != t && pcs[h] != Asleep
    ensures h in WakeAll(pcs)[t := Idle] && WakeAll(pcs)[t := Idle][h] == pcs[h]
  {
  }

  /** A step leaves the other threads that are awake where they are. */
  lemma {:induction false} OthersStay(s: State, t: Tid, choice: bool, h: Tid)
    requires Enabled(s, Step(t, choice)) && h in s.pcs && h != t && s.pcs[h] != Asleep
    ensures h in StepOf(s, t, choice).pcs && StepOf(s, t, choice).pcs[h] == s.pcs[h]
  {
    hide StepOf, WakeAll;
    if s.pcs[t] == Broadcast {
      BroadcastIs(s, t, choice);
      AwakeStays(s.pcs, t, h);
    } else {
      Moves(s, t, choice);
    }
  }

  /** A step outside the events lock leaves the completed transfers alone. */
  lemma {:induction false} OutsideStep(s: State, t: Tid, choice: bool)
    requires Enabled(s, Step(t, choice)) && !HasEventsLock(s.pcs[t])
    ensures StepOf(s, t, choice).taken == s.taken && StepOf(s, t, choice).e.completed == s.e.completed
  {
    hide Trigger, TriggerEnd, BeginClose, EndClose, PrepareSources, TakenMessages, WakeAll;
    Queues(s.e, choice, s.taken);
  }

  lemma {:induction false} SameSteps(s: State, s': State, pc: Pc)
    requires s'.taken == s.taken && |s'.e.completed| <= |s.e.completed| + 1
    ensures BroadcastSteps(s', pc) <= BroadcastSteps(s, pc) + 1
    ensures |s'.e.completed| == |s.e.completed| || pc == Broadcast ==> BroadcastSteps(s', pc) == BroadcastSteps(s, pc)
  {
  }

  lemma {:induction false} OnlyOne(ts: set<Tid>, t: Tid, u: Tid)
    requires AtMostOne(ts) && t in ts && u != t
    ensures u !in ts
  {
  }

  /** No step of another thread holds the thread in the lead up. */
  lemma {:induction false} OtherStep(s: State, t: Tid, choice: bool, h: Tid)
    requires Inv(s) && Leads(s, h) && h != t && Enabled(s, Step(t, choice))
    ensures var s' := StepOf(s, t, choice);
      h in s'.pcs && s'.pcs[h] == s.pcs[h] && BroadcastSteps(s', s.pcs[h]) == BroadcastSteps(s, s.pcs[h])
  {
    assert t in s.pcs && s.pcs[h] != Asleep && Locks(s);
    hide *;
    LeadsIff(s, h);
    OthersStay(s, t, choice, h);
    if HasEventsLock(s.pcs[t]) {
      LockParts(s);
      Belongs(s.pcs, t, HasEventsLock);
      OnlyOne(s.eventsLock, t, h);
      Belongs(s.pcs, h, HasEventsLock);
      BroadcastStepsIs(s, s.pcs[h]);
      BroadcastStepsIs(StepOf(s, t, choice), s.pcs[h]);
    } else {
      OutsideStep(s, t, choice);
      SameSteps(s, StepOf(s, t, choice), s.pcs[h]);
    }
  }

  /** Nor does anything else, except that each transfer signalled may be one more to hand over. */
  lemma {:induction false} OtherAction(s: State, a: Action, h: Tid)
    requires Leads(s, h) && Enabled(s, a) && !a.Step?
    ensures var s' := Next(s, a);
      h in s'.pcs && s'.pcs[h] == s.pcs[h]
      && BroadcastSteps(s', s.pcs[h]) <= BroadcastSteps(s, s.pcs[h]) + (if a.Signal? then 1 else 0)
  {
    hide BroadcastSteps;
    SameSteps(s, Next(s, a), s.pcs[h]);
  }

  lemma {:induction false} LeadGoesOn(s: State, a: Action, h: Tid)
    requires Inv(s) && Leads(s, h) && Enabled(s, a) && !(IsStepOf(a, h) && s.pcs[h] == Broadcast)
    ensures var s' := Next(s, a);
      Leads(s', h) && BroadcastSteps(s', s'.pcs[h]) + (if IsStepOf(a, h) then 1 else 0)
                      <= BroadcastSteps(s, s.pcs[h]) + (if a.Signal? then 1 else 0)
  {
    hide Inv, Enabled, StepOf, BroadcastSteps, HasEventsLock;
    if !a.Step? {
      OtherAction(s, a, h);
    } else if a.t == h {
      OwnStep(s, h, a.choice);
    } else {
      OtherStep(s, a.t, a.choice, h);
    }
  }

  lemma {:induction false} LeadBroadcasts(s: State, run: seq<Action>, h: Tid)
    requires Inv(s) && CanRun(s, run) && Leads(s, h)
    requires StepsBy(run, h) >= BroadcastSteps(s, s.pcs[h]) + Signals(run)
    ensures Broadcasts(s, run, h)
    decreases |run|
  {
    hide Inv, Next, Enabled, BroadcastSteps, HasEventsLock, IsStepOf;
    BroadcastStepsIs(s, s.pcs[h]);
    if !(IsStepOf(run[0], h) && s.pcs[h] == Broadcast) {
      NextInv(s, run[0]);
      LeadGoesOn(s, run[0], h);
      LeadBroadcasts(Next(s, run[0]), run[1..], h);
    }
  }

  lemma {:induction false} ThreadsStay(s: State, a: Action)
    requires Enabled(s, a)
    ensures Next(s, a).pcs.Keys == s.pcs.Keys
  {
    hide StepOf, WakeAll;
    if a.Step? {
      if s.pcs[a.t] == Broadcast {
        BroadcastIs(s, a.t, a.choice);
      } else {
        Moves(s, a.t, a.choice);
      }
    }
  }

  lemma {:induction false} AllAwake(s: State, a: Action, t: Tid)
    requires Enabled(s, a) && a.Step? && s.pcs[a.t] == Broadcast && t in s.pcs
    ensures t in Next(s, a).pcs && Next(s, a).pcs[t] != Asleep
  {
  }

  lemma {:induction false} BroadcastWakes(s: State, run: seq<Action>, h: Tid, t: Tid)
    requires CanRun(s, run) && Broadcasts(s, run, h) && t in s.pcs
    ensures Awakes(s, run, t)
    decreases |run|
  {
    hide Enabled, Next;
    var s1 := Next(s, run[0]);
    ThreadsStay(s, run[0]);
    if h in s.pcs && s.pcs[h] == Broadcast && IsStepOf(run[0], h) {
      AllAwake(s, run[0], t);
      assert Awakes(s1, run[1..], t);
    } else {
      BroadcastWakes(s1, run[1..], h, t);
    }
  }

  lemma {:induction false} StepsBound(s: State, h: Tid)
    requires h in s.pcs
    ensures HandlerSteps(s, s.pcs[h]) <= 10 + |s.e.completed| + |s.taken|
  {
  }

  /** From every reachable state, and whatever all the threads then do: once the holder of the events lock has taken
      more steps than it had left to give it back, plus one for each transfer signalled meanwhile, it has
      broadcast, and every thread has been awake. */
  lemma {:induction false} HolderWakesAll(s: State, before: seq<Action>, run: seq<Action>, h: Tid)
    requires Initial(s) && CanRun(s, before) && CanRun(Run(s, before), run) && h in Run(s, before).eventsLock
    ensures var s' := Run(s, before);
      && h in s'.pcs && HandlerSteps(s', s'.pcs[h]) <= 10 + |s'.e.completed| + |s'.taken|
      && (StepsBy(run, h) > HandlerSteps(s', s'.pcs[h]) + Signals(run) ==>
            Broadcasts(s', run, h) && forall t :: t in s'.pcs ==> Awakes(s', run, t))
  {
    InitialInv(s);
    RunInv(s, before);
    var s' := Run(s, before);
    hide *;
    HolderCanStep(s', h);
    LeadsIff(s', h);
    StepsBound(s', h);
    BroadcastStepsIs(s', s'.pcs[h]);
    if StepsBy(run, h) > HandlerSteps(s', s'.pcs[h]) + Signals(run) {
      LeadBroadcasts(s', run, h);
      forall t | t in s'.pcs
        ensures Awakes(s', run, t)
      {
        BroadcastWakes(s', run, h, t);
      }
    }
  }

  lemma {:induction false} OnItsWay(pc: Pc)
    requires WillBroadcast(pc) && !HasEventsLock(pc) && pc != Broadcast
    ensures pc == CloseLock
  {
  }

  lemma {:induction false} BroadcastNow(s: State, t: Tid, u: Tid) returns (run: seq<Action>)
    requires t in s.pcs && s.pcs[t] == Asleep && u in s.pcs && s.pcs[u] == Broadcast && s.waitersLock == {}
    ensures StepsOnly(run) && CanRun(s, run) && |run| == 1
    ensures t in Run(s, run).pcs && Run(s, run).pcs[t] == Woken
  {
    Prepend(s, Step(u, true), []);
    run := [Step(u, true)] + [];
  }

  /** While a thread sleeps, some thread still has a broadcast to make. */
  lemma {:induction false} Waker(s: State, t: Tid) returns (u: Tid)
    requires Inv(s) && t in s.pcs && s.pcs[t] == Asleep
    ensures u in s.pcs && WillBroadcast(s.pcs[u]) && (HasEventsLock(s.pcs[u]) <==> u in s.eventsLock)
  {
    assert t in Those(s.pcs, Sleeps);
    u :| u in Those(s.pcs, WillBroadcast);
    Belongs(s.pcs, u, HasEventsLock);
  }

  lemma {:induction false} CloseLockStep(s: State, u: Tid)
    requires u in s.pcs && s.pcs[u] == CloseLock && s.eventsLock == {}
    ensures Enabled(s, Step(u, true)) && Next(s, Step(u, true)) == s.(eventsLock := {u}, pcs := s.pcs[u := CloseActive])
  {
  }

  /** A thread about to close takes the free events lock, and later gives it back and broadcasts. */
  lemma {:induction false} CloseAndLetGo(s: State, t: Tid, u: Tid) returns (run: seq<Action>)
    requires Inv(s) && t in s.pcs && s.pcs[t] == Asleep && s.waitersLock == {} && s.eventsLock == {}
    requires u in s.pcs && s.pcs[u] == CloseLock
    ensures StepsOnly(run) && CanRun(s, run) && |run| <= 11 + |s.e.completed| + |s.taken|
    ensures t in Run(s, run).pcs && Run(s, run).pcs[t] == Woken
  {
    CloseLockStep(s, u);
    hide *;
    var a := Step(u, true);
    var s1 := Next(s, a);
    NextInv(s, a);
    StepsBound(s1, u);
    run := LetGo(s1, t, u);
    Prepend(s, a, run);
    StepFirst(a, run);
    run := [a] + run;
  }

  lemma {:induction false} WakeNow(s: State, t: Tid) returns (run: seq<Action>)
    requires Inv(s) && t in s.pcs && s.pcs[t] == Asleep && s.waitersLock == {}
    ensures StepsOnly(run) && CanRun(s, run) && |run| <= 11 + |s.e.completed| + |s.taken|
    ensures t in Run(s, run).pcs && Run(s, run).pcs[t] == Woken
  {
    hide *;
    var u := Waker(s, t);
    if s.pcs[u] == Broadcast {
      run := BroadcastNow(s, t, u);
    } else if s.eventsLock != {} {
      var h :| h in s.eventsLock;
      HolderCanStep(s, h);
      StepsBound(s, h);
      run := LetGo(s, t, h);
    } else {
      OnItsWay(s.pcs[u]);
      run := CloseAndLetGo(s, t, u);
    }
  }

  /** From every reachable state each sleeper can be woken by a broadcast, in a bounded number of steps of
      the other threads, with no timeout and nobody new entering; the wait for events returning is the
      one thing that may take its time, and it returns at once while a close is announced. */
  lemma {:induction false} SleeperCanBeWoken(s: State, t: Tid) returns (run: seq<Action>)
    requires Inv(s) && t in s.pcs && s.pcs[t] == Asleep
    ensures StepsOnly(run) && CanRun(s, run) && |run| <= 14 + |s.e.completed| + |s.taken|
    ensures t in Run(s, run).pcs && Run(s, run).pcs[t] == Woken
  {
    run := [];
    if s.waitersLock != {} {
      var w :| w in s.waitersLock;
      run := FreeWaitersLock(s, t, w);
    }
    var s1 := Run(s, run);
    RunInv(s, run);
    var more := WakeNow(s1, t);
    Append(s, run, more);
    run := run + more;
  }
}
