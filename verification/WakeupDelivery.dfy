/** What a round of event handling achieves in the Wakeup machine, whatever the other threads do meanwhile. */
module WakeupDelivery {
  import opened Events
  import opened Wakeup
  import opened WakeupProofs

  /** Every wait of `h` returns, and neither the operating system nor the backend reports it an error. */
  ghost predicate NoErrors(run: seq<Action>, h: Tid) {
    forall i :: 0 <= i < |run| && IsStepOf(run[i], h) ==> run[i].choice
  }

  /** The handler is done with what it was signalled. */
  ghost predicate Done(s: State, signalled: seq<Id>, posted: seq<Message>) {
    signalled <= s.handed && posted <= s.messages
  }

  /** How far the handler has got with the transfers and messages there were. */
  ghost predicate OnTheWay(s: State, h: Tid, signalled: seq<Id>, posted: seq<Message>) {
    && h in s.pcs && signalled <= s.everSignalled && posted <= s.everPosted
    && match s.pcs[h]
       case Prepare => true
       case Poll => true
       case Triggered => true
       case Drain => signalled <= s.handed + s.taken && posted <= s.messages + s.news
       case DrainEnd(r) => !r && signalled <= s.handed && posted <= s.messages + s.news
       case Dispatch(r) => !r && signalled <= s.handed && posted <= s.messages + s.news
       case _ => Done(s, signalled, posted)
  }

  lemma {:induction false} Longer<T>(a: seq<T>, b: seq<T>, c: seq<T>)
    requires a <= b && b <= c
    ensures a <= c
  {
  }

  /** The handler's own steps. */
  lemma {:induction false} AtPoll(s: State, h: Tid, signalled: seq<Id>, posted: seq<Message>)
    requires Inv(s) && OnTheWay(s, h, signalled, posted) && s.pcs[h] == Poll && Enabled(s, Step(h, true))
    ensures OnTheWay(StepOf(s, h, true), h, signalled, posted)
  {
    DrainIsMine(s, h);
    NewsIsMine(s, h);
    if !s.e.signalled {
      assert s.e.completed == [] && s.e.hotplugMsgs == [] && s.taken == [] && s.news == [];
      assert s.handed + [] + [] == s.handed && s.messages + [] + [] == s.messages;
    }
  }

  lemma {:induction false} AllTaken(s: State, h: Tid)
    requires Inv(s) && h in s.pcs && s.pcs[h] == Triggered
    ensures s.handed + s.e.completed == s.everSignalled && s.messages + TakenMessages(s.e) == s.everPosted
    ensures TRANSFER_COMPLETED !in s.e.flags ==> s.handed == s.everSignalled
  {
    DrainIsMine(s, h);
    NewsIsMine(s, h);
    assert s.taken == [] && s.handed + [] == s.handed && s.news == [] && s.messages + [] == s.messages;
  }

  lemma {:induction false} AtTriggered(s: State, h: Tid, signalled: seq<Id>, posted: seq<Message>)
    requires Inv(s) && OnTheWay(s, h, signalled, posted) && s.pcs[h] == Triggered && Enabled(s, Step(h, true))
    ensures OnTheWay(StepOf(s, h, true), h, signalled, posted)
  {
    AllTaken(s, h);
    TriggerStep(s, h, true);
    hide Inv, Trigger, StepOf, Enabled, TakenMessages;
  }

  lemma {:induction false} AtDrain(s: State, h: Tid, signalled: seq<Id>, posted: seq<Message>)
    requires OnTheWay(s, h, signalled, posted) && s.pcs[h] == Drain && Enabled(s, Step(h, true))
    ensures OnTheWay(StepOf(s, h, true), h, signalled, posted)
  {
    if s.taken == [] {
      assert s.handed + [] == s.handed;
    } else {
      assert s.handed + s.taken == (s.handed + [s.taken[0]]) + s.taken[1..];
    }
  }

  lemma {:induction false} AtNews(s: State, h: Tid, signalled: seq<Id>, posted: seq<Message>)
    requires OnTheWay(s, h, signalled, posted) && (s.pcs[h].DrainEnd? || s.pcs[h].Dispatch?)
    requires Enabled(s, Step(h, true))
    ensures OnTheWay(StepOf(s, h, true), h, signalled, posted)
  {
    hide TriggerEnd;
  }

  /** Nothing handed over is taken back. */
  lemma {:induction false} Grows(s: State, t: Tid, choice: bool)
    requires Enabled(s, Step(t, choice))
    ensures var s' := StepOf(s, t, choice);
      && s.handed <= s'.handed && s.messages <= s'.messages
      && s'.everSignalled == s.everSignalled && s'.everPosted == s.everPosted
  {
    hide Trigger, TriggerEnd, BeginClose, EndClose, PrepareSources, TakenMessages, WakeAll;
  }

  lemma {:induction false} ElsewhereInside(s: State, h: Tid)
    requires Enabled(s, Step(h, true)) && s.pcs[h] != Poll && s.pcs[h] != Triggered && !HasNews(s.pcs[h])
    requires HasEventsLock(s.pcs[h])
    ensures var s' := StepOf(s, h, true);
      h in s'.pcs && !s'.pcs[h].Triggered? && !HasNews(s'.pcs[h]) && (s.pcs[h] == Prepare ==> s'.pcs[h] == Poll)
  {
    hide Trigger, TriggerEnd, BeginClose, EndClose, PrepareSources, TakenMessages, WakeAll;
  }

  lemma {:induction false} ElsewhereOutside(s: State, h: Tid)
    requires Enabled(s, Step(h, true)) && !HasEventsLock(s.pcs[h])
    ensures var s' := StepOf(s, h, true);
      h in s'.pcs && !s'.pcs[h].Triggered? && !HasNews(s'.pcs[h])
  {
    hide Trigger, TriggerEnd, BeginClose, EndClose, PrepareSources, TakenMessages, WakeAll;
  }

  lemma {:induction false} Elsewhere(s: State, h: Tid)
    requires Enabled(s, Step(h, true)) && s.pcs[h] != Poll && s.pcs[h] != Triggered && !HasNews(s.pcs[h])
    ensures var s' := StepOf(s, h, true);
      h in s'.pcs && !s'.pcs[h].Triggered? && !HasNews(s'.pcs[h]) && (s.pcs[h] == Prepare ==> s'.pcs[h] == Poll)
  {
    hide StepOf, HasNews;
    if HasEventsLock(s.pcs[h]) {
      ElsewhereInside(s, h);
    } else {
      ElsewhereOutside(s, h);
    }
  }

  lemma {:induction false} OwnStepOn(s: State, h: Tid, signalled: seq<Id>, posted: seq<Message>)
    requires Inv(s) && OnTheWay(s, h, signalled, posted) && Enabled(s, Step(h, true))
    ensures OnTheWay(StepOf(s, h, true), h, signalled, posted)
  {
    hide Inv, StepOf, Enabled;
    if s.pcs[h] == Poll {
      AtPoll(s, h, signalled, posted);
    } else if s.pcs[h] == Triggered {
      AtTriggered(s, h, signalled, posted);
    } else if s.pcs[h] == Drain {
      AtDrain(s, h, signalled, posted);
    } else if HasNews(s.pcs[h]) {
      AtNews(s, h, signalled, posted);
    } else {
      Grows(s, h, true);
      Elsewhere(s, h);
    }
  }

  /** While `h` holds the events lock the steps of others do not touch what it has taken over. */
  lemma {:induction false} OutsideKeeps(s: State, t: Tid, choice: bool)
    requires Enabled(s, Step(t, choice)) && !HasEventsLock(s.pcs[t])
    ensures var s' := StepOf(s, t, choice);
      s'.handed == s.handed && s'.taken == s.taken && s'.messages == s.messages && s'.news == s.news
  {
    hide Trigger, TriggerEnd, BeginClose, EndClose, PrepareSources, TakenMessages, WakeAll;
  }

  lemma {:induction false} OthersOutside(s: State, h: Tid, t: Tid)
    requires Locks(s) && h in s.pcs && t in s.pcs && h != t && HasEventsLock(s.pcs[h])
    ensures !HasEventsLock(s.pcs[t])
  {
    Belongs(s.pcs, h, HasEventsLock);
    Belongs(s.pcs, t, HasEventsLock);
  }

  /** A sleeper may be woken by others; any other thread is left where it is. */
  lemma {:induction false} PlaceOfOther(s: State, t: Tid, choice: bool, h: Tid)
    requires Enabled(s, Step(t, choice)) && h in s.pcs && h != t
    ensures h in StepOf(s, t, choice).pcs
    ensures StepOf(s, t, choice).pcs[h] == s.pcs[h] || StepOf(s, t, choice).pcs[h] == Woken
    ensures s.pcs[h] != Asleep ==> StepOf(s, t, choice).pcs[h] == s.pcs[h]
  {
    hide StepOf;
    if s.pcs[t] == Broadcast {
      BroadcastIs(s, t, choice);
    } else {
      Moves(s, t, choice);
    }
  }

  lemma {:induction false} OtherStepOn(s: State, t: Tid, choice: bool, h: Tid, signalled: seq<Id>, posted: seq<Message>)
    requires Inv(s) && OnTheWay(s, h, signalled, posted) && Enabled(s, Step(t, choice)) && t != h
    ensures OnTheWay(StepOf(s, t, choice), h, signalled, posted)
  {
    assert Locks(s) && t in s.pcs;
    hide Inv, StepOf, Enabled;
    PlaceOfOther(s, t, choice, h);
    Grows(s, t, choice);
    if HasEventsLock(s.pcs[h]) {
      OthersOutside(s, h, t);
      OutsideKeeps(s, t, choice);
    }
  }

  lemma {:induction false} OtherActionOn(s: State, a: Action, h: Tid, signalled: seq<Id>, posted: seq<Message>)
    requires OnTheWay(s, h, signalled, posted) && Enabled(s, a) && !a.Step?
    ensures OnTheWay(Next(s, a), h, signalled, posted)
  {
    hide SignalCompletion, PostMessage, Raise;
  }

  lemma {:induction false} StaysOnTheWay(s: State, run: seq<Action>, h: Tid, signalled: seq<Id>, posted: seq<Message>)
    requires Inv(s) && OnTheWay(s, h, signalled, posted) && CanRun(s, run) && NoErrors(run, h)
    ensures OnTheWay(Run(s, run), h, signalled, posted)
    decreases |run|
  {
    hide Inv, OnTheWay, StepOf, Enabled;
    if run != [] {
      var a := run[0];
      NextInv(s, a);
      if !a.Step? {
        OtherActionOn(s, a, h, signalled, posted);
      } else if a.t == h {
        OwnStepOn(s, h, signalled, posted);
      } else {
        OtherStepOn(s, a.t, a.choice, h, signalled, posted);
      }
      StaysOnTheWay(Next(s, a), run[1..], h, signalled, posted);
    }
  }

  /** Between its wait and the end of its round a handler that meets no error hands over every transfer, and delivers
      every message, that was signalled before the wait returned, in every interleaving. */
  lemma {:induction false} WaitDelivers(s: State, before: seq<Action>, run: seq<Action>, h: Tid)
    requires Initial(s) && CanRun(s, before) && CanRun(Run(s, before), run) && NoErrors(run, h)
    requires h in Run(s, before).pcs && Run(s, before).pcs[h] == Poll
    requires h in Run(Run(s, before), run).pcs && Run(Run(s, before), run).pcs[h] == ClearActive
    ensures var s1, s2 := Run(s, before), Run(Run(s, before), run);
      s1.everSignalled <= s2.handed && s1.everPosted <= s2.messages
  {
    InitialInv(s);
    RunInv(s, before);
    var s1 := Run(s, before);
    StaysOnTheWay(s1, run, h, s1.everSignalled, s1.everPosted);
  }

  // And then the event is quiet.

  /** No transfer is signalled, no message posted and no other event raised. */
  ghost predicate NothingRaised(run: seq<Action>) {
    forall i :: 0 <= i < |run| ==> !run[i].Signal? && !run[i].Post? && !run[i].Notify?
  }

  /** The flags that announce neither closes nor anything in the queues have been taken note of. */
  ghost predicate Noted(s: State, h: Tid) {
    && h in s.pcs
    && (s.pcs[h] != Prepare ==> SOURCES_MODIFIED !in s.e.flags)
    && (s.pcs[h] != Prepare && s.pcs[h] != Poll && s.pcs[h] != Triggered ==>
          USER_INTERRUPT !in s.e.flags && HOTPLUG_CB_DEREGISTERED !in s.e.flags)
  }

  lemma {:induction false} SectionsRaiseNone(e: EventData, ok: bool, rest: seq<Id>, f: Flag)
    requires f in {SOURCES_MODIFIED, USER_INTERRUPT, HOTPLUG_CB_DEREGISTERED} && f !in e.flags
    ensures f !in PrepareSources(e, ok).flags && f !in Trigger(e).flags && f !in TriggerEnd(e, rest).flags
    ensures f !in BeginClose(e).flags && (e.deviceClose > 0 ==> f !in EndClose(e).flags)
  {
  }

  /** The steps of threads raise none of these flags. */
  lemma {:induction false} NoneRaised(s: State, t: Tid, choice: bool, f: Flag)
    requires Enabled(s, Step(t, choice)) && f in {SOURCES_MODIFIED, USER_INTERRUPT, HOTPLUG_CB_DEREGISTERED}
    requires f !in s.e.flags
    ensures f !in StepOf(s, t, choice).e.flags
  {
    hide Trigger, TriggerEnd, BeginClose, EndClose, PrepareSources, TakenMessages, WakeAll;
    SectionsRaiseNone(s.e, choice, s.taken, f);
  }

  lemma {:induction false} PrepareNotes(s: State, h: Tid)
    requires Enabled(s, Step(h, true)) && s.pcs[h] == Prepare
    ensures SOURCES_MODIFIED !in StepOf(s, h, true).e.flags
    ensures h in StepOf(s, h, true).pcs && StepOf(s, h, true).pcs[h] == Poll
  {
  }

  lemma {:induction false} PollNotes(s: State, h: Tid)
    requires Inv(s) && Enabled(s, Step(h, true)) && s.pcs[h] == Poll
    ensures var s' := StepOf(s, h, true);
      h in s'.pcs && s'.e == s.e && (s'.pcs[h] == Triggered || (s'.pcs[h] == Process && s.e.flags == {}))
  {
  }

  lemma {:induction false} TriggerNotes(s: State, h: Tid)
    requires Enabled(s, Step(h, true)) && s.pcs[h] == Triggered
    ensures var s' := StepOf(s, h, true);
      && h in s'.pcs && USER_INTERRUPT !in s'.e.flags && HOTPLUG_CB_DEREGISTERED !in s'.e.flags
      && HasNews(s'.pcs[h])
  {
  }

  lemma {:induction false} AtNewsNext(s: State, h: Tid)
    requires Enabled(s, Step(h, true)) && HasNews(s.pcs[h])
    ensures h in StepOf(s, h, true).pcs
    ensures var pc := StepOf(s, h, true).pcs[h]; HasNews(pc) || pc == Process || pc == ClearActive
  {
    hide TriggerEnd;
  }

  lemma {:induction false} AllNoted(s: State, t: Tid, choice: bool)
    requires Enabled(s, Step(t, choice))
    ensures SOURCES_MODIFIED !in s.e.flags ==> SOURCES_MODIFIED !in StepOf(s, t, choice).e.flags
    ensures USER_INTERRUPT !in s.e.flags ==> USER_INTERRUPT !in StepOf(s, t, choice).e.flags
    ensures HOTPLUG_CB_DEREGISTERED !in s.e.flags ==> HOTPLUG_CB_DEREGISTERED !in StepOf(s, t, choice).e.flags
  {
    hide StepOf, Enabled;
    if SOURCES_MODIFIED !in s.e.flags { NoneRaised(s, t, choice, SOURCES_MODIFIED); }
    if USER_INTERRUPT !in s.e.flags { NoneRaised(s, t, choice, USER_INTERRUPT); }
    if HOTPLUG_CB_DEREGISTERED !in s.e.flags { NoneRaised(s, t, choice, HOTPLUG_CB_DEREGISTERED); }
  }

  lemma {:induction false} PlaceOfEntering(s: State, a: Action, h: Tid)
    requires Enabled(s, a) && h in s.pcs && (a.HandleEvents? || a.CloseHandle? || a.TimeOut?)
    ensures Next(s, a).e == s.e && h in Next(s, a).pcs
    ensures var pc := Next(s, a).pcs[h]; pc == s.pcs[h] || (s.pcs[h] == Idle || s.pcs[h] == Asleep)
    ensures var pc := Next(s, a).pcs[h]; pc == s.pcs[h] || pc == TryClose || pc == CloseBegin || pc == Woken
  {
  }

  lemma {:induction false} NextNoted(s: State, a: Action, h: Tid)
    requires Inv(s) && Noted(s, h) && Enabled(s, a) && !a.Signal? && !a.Post? && !a.Notify?
    requires IsStepOf(a, h) ==> a.choice
    ensures Noted(Next(s, a), h)
  {
    hide Inv, StepOf, Enabled;
    if a.Step? {
      AllNoted(s, a.t, a.choice);
      if a.t != h {
        PlaceOfOther(s, a.t, a.choice, h);
      } else if s.pcs[h] == Prepare {
        PrepareNotes(s, h);
      } else if s.pcs[h] == Poll {
        PollNotes(s, h);
      } else if s.pcs[h] == Triggered {
        TriggerNotes(s, h);
      } else if HasNews(s.pcs[h]) {
        AtNewsNext(s, h);
      } else {
        Elsewhere(s, h);
      }
    } else {
      PlaceOfEntering(s, a, h);
    }
  }

  lemma {:induction false} StaysNoted(s: State, run: seq<Action>, h: Tid)
    requires Inv(s) && Noted(s, h) && CanRun(s, run) && NoErrors(run, h) && NothingRaised(run)
    ensures Noted(Run(s, run), h)
    ensures Run(s, run).everSignalled == s.everSignalled && Run(s, run).everPosted == s.everPosted
    decreases |run|
  {
    hide Inv, Noted, StepOf, Enabled;
    if run != [] {
      var a := run[0];
      NextInv(s, a);
      NextNoted(s, a, h);
      if a.Step? {
        Grows(s, a.t, a.choice);
      }
      StaysNoted(Next(s, a), run[1..], h);
    }
  }

  lemma {:induction false} NothingLeft(s: State, h: Tid)
    requires Inv(s) && Noted(s, h) && s.pcs[h] == ClearActive && s.e.deviceClose == 0
    requires Done(s, s.everSignalled, s.everPosted)
    ensures !s.e.signalled
  {
    DrainIsMine(s, h);
    assert |s.handed + s.taken + s.e.completed| == |s.everSignalled|;
    assert |s.messages + s.news + s.e.hotplugMsgs| == |s.everPosted|;
    assert s.e.completed == [] && s.e.hotplugMsgs == [];
    forall f ensures f !in s.e.flags {
      match f
      case SOURCES_MODIFIED =>
      case USER_INTERRUPT =>
      case HOTPLUG_CB_DEREGISTERED =>
      case _ =>
    }
  }

  /** A round of a handler that meets no error leaves the event quiet, unless something is raised meanwhile or a close
      is announced: it does not wake up again for what it has dealt with. */
  lemma {:induction false} RoundQuiets(s: State, before: seq<Action>, run: seq<Action>, h: Tid)
    requires Initial(s) && CanRun(s, before) && CanRun(Run(s, before), run) && NoErrors(run, h) && NothingRaised(run)
    requires h in Run(s, before).pcs && Run(s, before).pcs[h] == Prepare
    requires h in Run(Run(s, before), run).pcs && Run(Run(s, before), run).pcs[h] == ClearActive
    requires Run(Run(s, before), run).e.deviceClose == 0
    ensures !Run(Run(s, before), run).e.signalled
  {
    InitialInv(s);
    RunInv(s, before);
    var s1 := Run(s, before);
    StaysOnTheWay(s1, run, h, s1.everSignalled, s1.everPosted);
    StaysNoted(s1, run, h);
    RunInv(s1, run);
    hide Inv, Noted, Run, CanRun;
    NothingLeft(Run(s1, run), h);
  }

  // Who gets in, and who waits.

  /** The thread can take its step, and it leads there. */
  ghost predicate Takes(s: State, h: Tid, choice: bool, s': State) {
    Enabled(s, Step(h, choice)) && StepOf(s, h, choice) == s'
  }

  lemma {:induction false} MovedTwice(s: State, h: Tid, a: Pc, b: Pc)
    ensures Goto(Goto(s, h, a), h, b) == Goto(s, h, b)
  {
    assert s.pcs[h := a][h := b] == s.pcs[h := b];
  }

  /** One step, where nobody is in the way; so below. */
  lemma {:induction false} AtTryClose(s: State, h: Tid, choice: bool)
    requires h in s.pcs
    ensures Takes(Goto(s, h, TryClose), h, choice,
                  Goto(s, h, if s.e.deviceClose > 0 then WaitersLock else TryLock))
  {
    MovedTwice(s, h, TryClose, if s.e.deviceClose > 0 then WaitersLock else TryLock);
  }

  lemma {:induction false} AtTryLock(s: State, h: Tid, choice: bool)
    requires h in s.pcs
    ensures Takes(Goto(s, h, TryLock), h, choice,
                  if s.eventsLock == {} then Goto(s.(eventsLock := {h}), h, SetActive) else Goto(s, h, WaitersLock))
  {
    MovedTwice(s, h, TryLock, WaitersLock);
    MovedTwice(s.(eventsLock := {h}), h, TryLock, SetActive);
  }

  lemma {:induction false} AtSetActive(s: State, h: Tid)
    requires h in s.pcs
    ensures Takes(Goto(s, h, SetActive), h, false, Goto(s.(handlerActive := true), h, Prepare))
  {
    MovedTwice(s.(handlerActive := true), h, SetActive, Prepare);
  }

  lemma {:induction false} Enters(s: State, h: Tid)
    requires h in s.pcs
    ensures s.pcs[h] == Idle ==> Enabled(s, HandleEvents(h)) && Next(s, HandleEvents(h)) == Goto(s, h, TryClose)
    ensures Enabled(Goto(s, h, Asleep), TimeOut(h)) && Next(Goto(s, h, Asleep), TimeOut(h)) == Goto(s, h, Woken)
    ensures s.pcs[h] == Idle ==> Goto(s, h, Idle) == s
  {
    MovedTwice(s, h, Asleep, Woken);
    assert s.pcs[h := s.pcs[h]] == s.pcs;
  }

  /** The run of one step, and then the others. */
  lemma {:induction false} StepThen(s: State, h: Tid, choice: bool, s': State, run: seq<Action>)
    requires Takes(s, h, choice, s') && CanRun(s', run)
    ensures CanRun(s, [Step(h, choice)] + run) && Run(s, [Step(h, choice)] + run) == Run(s', run)
  {
    hide StepOf, Enabled;
    Prepend(s, Step(h, choice), run);
  }

  /** A thread that comes to handle events finds its way to the wait, with the events lock, if that is free and no close
      is announced. */
  lemma {:induction false} FreeLockIsTaken(s: State, h: Tid, choice: bool)
    requires h in s.pcs && s.pcs[h] == Idle && s.eventsLock == {} && s.e.deviceClose == 0
    ensures var run := [HandleEvents(h), Step(h, choice), Step(h, choice), Step(h, false)];
      CanRun(s, run) && Run(s, run) == s.(pcs := s.pcs[h := Prepare], eventsLock := {h}, handlerActive := true)
  {
    var s1, s2 := Goto(s, h, TryClose), Goto(s, h, TryLock);
    var s3, s4 := Goto(s.(eventsLock := {h}), h, SetActive),
      s.(pcs := s.pcs[h := Prepare], eventsLock := {h}, handlerActive := true);
    AtTryClose(s, h, choice);
    AtTryLock(s, h, choice);
    AtSetActive(s.(eventsLock := {h}), h);
    Enters(s, h);
    hide Enabled, Next, Takes, CanRun, Run;
    NoSteps(s4);
    StepThen(s3, h, false, s4, []);
    StepThen(s2, h, choice, s3, [Step(h, false)]);
    StepThen(s1, h, choice, s2, [Step(h, choice), Step(h, false)]);
    Prepend(s, HandleEvents(h), [Step(h, choice), Step(h, choice), Step(h, false)]);
  }

  /** A handler waits for events only with the sources there are; if it cannot get hold of them, it does not wait, and
      the event stays signalled. */
  lemma {:induction false} WaitsOnNewSources(s: State, run: seq<Action>, h: Tid, choice: bool)
    requires Initial(s) && CanRun(s, run)
    requires h in Run(s, run).pcs && Run(s, run).pcs[h] == Prepare
    ensures var s1 := Run(s, run);
      && Enabled(s1, Step(h, choice)) && h in Next(s1, Step(h, choice)).pcs
      && var s2 := Next(s1, Step(h, choice));
      if s2.pcs[h] == Poll then SOURCES_MODIFIED !in s2.e.flags
        else s2.pcs[h] == ClearActive && s2.e == s1.e && SOURCES_MODIFIED in s1.e.flags && s1.e.signalled
  {
    InitialInv(s);
    RunInv(s, run);
    hide Locks, Announced, SleepersHaveWaker, Those, Run, CanRun;
  }

  lemma {:induction false} AtWaitersLock(s: State, h: Tid, choice: bool)
    requires h in s.pcs && s.waitersLock == {}
    ensures Takes(Goto(s, h, WaitersLock), h, choice, Goto(s.(waitersLock := {h}), h, CheckDone))
  {
    MovedTwice(s.(waitersLock := {h}), h, WaitersLock, CheckDone);
  }

  lemma {:induction false} AtCheckDone(s: State, h: Tid)
    requires h in s.pcs
    ensures Takes(Goto(s, h, CheckDone), h, false, Goto(s, h, ActiveClose))
  {
    MovedTwice(s, h, CheckDone, ActiveClose);
  }

  lemma {:induction false} ComesToWait(s: State, h: Tid, choice: bool)
    requires h in s.pcs && s.pcs[h] == Idle && s.eventsLock != {} && s.waitersLock == {}
    requires s.e.deviceClose == 0 && s.handlerActive
    ensures var coming := [HandleEvents(h), Step(h, choice), Step(h, choice), Step(h, choice), Step(h, false)];
      CanRun(s, coming) && Run(s, coming) == Goto(s, h, ActiveClose).(waitersLock := {h})
  {
    var a := Step(h, choice);
    AtTryClose(s, h, choice);
    AtTryLock(s, h, choice);
    AtWaitersLock(s, h, choice);
    AtCheckDone(s.(waitersLock := {h}), h);
    Enters(s, h);
    hide Enabled, Next, Takes, CanRun, Run;
    var s3 := Goto(s, h, CheckDone).(waitersLock := {h});
    var s4 := Goto(s, h, ActiveClose).(waitersLock := {h});
    NoSteps(s4);
    StepThen(s3, h, false, s4, []);
    StepThen(Goto(s, h, WaitersLock), h, choice, s3, [Step(h, false)]);
    StepThen(Goto(s, h, TryLock), h, choice, Goto(s, h, WaitersLock), [a, Step(h, false)]);
    StepThen(Goto(s, h, TryClose), h, choice, Goto(s, h, TryLock), [a, a, Step(h, false)]);
    Prepend(s, HandleEvents(h), [a, a, a, Step(h, false)]);
  }

  lemma {:induction false} AtActiveClose(s: State, h: Tid, choice: bool)
    requires h in s.pcs
    ensures Takes(Goto(s, h, ActiveClose), h, choice,
                  Goto(s, h, if s.e.deviceClose > 0 then GoToSleep else ActiveRead))
  {
    MovedTwice(s, h, ActiveClose, if s.e.deviceClose > 0 then GoToSleep else ActiveRead);
  }

  lemma {:induction false} AtActiveRead(s: State, h: Tid, choice: bool)
    requires h in s.pcs && s.handlerActive
    ensures Takes(Goto(s, h, ActiveRead), h, choice, Goto(s, h, GoToSleep))
  {
    MovedTwice(s, h, ActiveRead, GoToSleep);
  }

  lemma {:induction false} AtGoToSleep(s: State, h: Tid, choice: bool)
    requires h in s.pcs
    ensures Takes(Goto(s, h, GoToSleep), h, choice, Goto(s.(waitersLock := {}), h, Asleep))
  {
    MovedTwice(s.(waitersLock := {}), h, GoToSleep, Asleep);
  }

  lemma {:induction false} FallsAsleep(s: State, h: Tid, choice: bool)
    requires h in s.pcs && s.waitersLock == {} && s.e.deviceClose == 0 && s.handlerActive
    ensures var s1 := Goto(s, h, ActiveClose).(waitersLock := {h});
      var waiting := [Step(h, choice), Step(h, choice), Step(h, choice)];
      CanRun(s1, waiting) && Run(s1, waiting) == Goto(s, h, Asleep)
  {
    var a := Step(h, choice);
    AtActiveClose(s.(waitersLock := {h}), h, choice);
    AtActiveRead(s.(waitersLock := {h}), h, choice);
    AtGoToSleep(s.(waitersLock := {h}), h, choice);
    hide Enabled, Next, Takes, CanRun, Run;
    var s2, s3 := Goto(s, h, ActiveRead).(waitersLock := {h}), Goto(s, h, GoToSleep).(waitersLock := {h});
    NoSteps(Goto(s, h, Asleep));
    StepThen(s3, h, choice, Goto(s, h, Asleep), []);
    StepThen(s2, h, choice, s3, [a]);
    StepThen(Goto(s, h, ActiveClose).(waitersLock := {h}), h, choice, s2, [a, a]);
  }

  lemma {:induction false} AtWoken(s: State, h: Tid, choice: bool)
    requires h in s.pcs && s.waitersLock == {}
    ensures Takes(Goto(s, h, Woken), h, choice, Goto(s.(waitersLock := {h}), h, WaitersUnlock(false)))
  {
    MovedTwice(s.(waitersLock := {h}), h, Woken, WaitersUnlock(false));
  }

  lemma {:induction false} AtWaitersUnlock(s: State, h: Tid, choice: bool)
    requires h in s.pcs
    ensures Takes(Goto(s, h, WaitersUnlock(false)), h, choice, Goto(s.(waitersLock := {}), h, Idle))
  {
    MovedTwice(s.(waitersLock := {}), h, WaitersUnlock(false), Idle);
  }

  lemma {:induction false} GivesUp(s: State, h: Tid, choice: bool)
    requires h in s.pcs && s.pcs[h] == Idle && s.waitersLock == {}
    ensures var s1, leaving := Goto(s, h, Asleep), [TimeOut(h), Step(h, choice), Step(h, choice)];
      CanRun(s1, leaving) && Run(s1, leaving) == s
  {
    var a := Step(h, choice);
    AtWoken(s, h, choice);
    AtWaitersUnlock(s.(waitersLock := {h}), h, choice);
    Enters(s, h);
    hide Enabled, Next, Takes, CanRun, Run;
    var s3 := Goto(s, h, WaitersUnlock(false)).(waitersLock := {h});
    NoSteps(s);
    StepThen(s3, h, choice, s, []);
    StepThen(Goto(s, h, Woken), h, choice, s3, [a]);
    Prepend(Goto(s, h, Asleep), TimeOut(h), [a, a]);
  }

  /** A thread that comes while another handles events and waits in vain has changed nothing when it returns. */
  lemma {:induction false} BusyLockIsAwaited(s: State, h: Tid, choice: bool)
    requires h in s.pcs && s.pcs[h] == Idle && s.eventsLock != {} && s.waitersLock == {}
    requires s.handlerActive && s.e.deviceClose == 0
    ensures var coming := [HandleEvents(h), Step(h, choice), Step(h, choice), Step(h, choice), Step(h, false)];
      var waiting := [Step(h, choice), Step(h, choice), Step(h, choice)];
      var leaving := [TimeOut(h), Step(h, choice), Step(h, choice)];
      && CanRun(s, coming + waiting) && Run(s, coming + waiting) == Goto(s, h, Asleep)
      && CanRun(Goto(s, h, Asleep), leaving) && Run(Goto(s, h, Asleep), leaving) == s
  {
    var coming := [HandleEvents(h), Step(h, choice), Step(h, choice), Step(h, choice), Step(h, false)];
    var waiting := [Step(h, choice), Step(h, choice), Step(h, choice)];
    ComesToWait(s, h, choice);
    FallsAsleep(s, h, choice);
    Append(s, coming, waiting);
    GivesUp(s, h, choice);
  }

  /** So is one that comes while a close is announced, whether another thread handles events or not. */
  lemma {:induction false} CloseIsAwaited(s: State, h: Tid, choice: bool)
    requires h in s.pcs && s.pcs[h] == Idle && s.waitersLock == {} && s.e.deviceClose > 0
    ensures var waiting :=
            [HandleEvents(h), Step(h, choice), Step(h, choice), Step(h, false), Step(h, choice), Step(h, choice)];
      var leaving := [TimeOut(h), Step(h, choice), Step(h, choice)];
      && CanRun(s, waiting) && Run(s, waiting) == Goto(s, h, Asleep)
      && CanRun(Goto(s, h, Asleep), leaving) && Run(Goto(s, h, Asleep), leaving) == s
  {
    var a := Step(h, choice);
    AtTryClose(s, h, choice);
    AtWaitersLock(s, h, choice);
    AtCheckDone(s.(waitersLock := {h}), h);
    AtActiveClose(s.(waitersLock := {h}), h, choice);
    AtGoToSleep(s.(waitersLock := {h}), h, choice);
    Enters(s, h);
    GivesUp(s, h, choice);
    hide Enabled, Next, Takes, CanRun, Run;
    var s3, s4 := Goto(s, h, CheckDone).(waitersLock := {h}), Goto(s, h, ActiveClose).(waitersLock := {h});
    var s5 := Goto(s, h, GoToSleep).(waitersLock := {h});
    NoSteps(Goto(s, h, Asleep));
    StepThen(s5, h, choice, Goto(s, h, Asleep), []);
    StepThen(s4, h, choice, s5, [a]);
    StepThen(s3, h, false, s4, [a, a]);
    StepThen(Goto(s, h, WaitersLock), h, choice, s3, [Step(h, false), a, a]);
    StepThen(Goto(s, h, TryClose), h, choice, Goto(s, h, WaitersLock), [a, Step(h, false), a, a]);
    Prepend(s, HandleEvents(h), [a, a, Step(h, false), a, a]);
  }

  // A close is not kept waiting by newcomers.

  /** In handle_events or about to be, past the look at device_close. */
  predicate Coming(pc: Pc) {
    pc.TryLock? || pc.SetActive? || InHandler(pc)
  }

  /** The close of `k` is announced all the time. */
  ghost predicate Closes(s: State, run: seq<Action>, k: Tid)
    requires CanRun(s, run)
    decreases |run|
  {
    k in s.pcs && InClose(s.pcs[k]) && (run == [] || Closes(Next(s, run[0]), run[1..], k))
  }

  lemma {:induction false} StaysOut(s: State, t: Tid, choice: bool)
    requires Enabled(s, Step(t, choice)) && s.pcs[t] != Broadcast && !Coming(s.pcs[t]) && s.e.deviceClose > 0
    ensures t in StepOf(s, t, choice).pcs && !Coming(StepOf(s, t, choice).pcs[t])
  {
    hide Trigger, TriggerEnd, BeginClose, EndClose, PrepareSources, TakenMessages, CanStep, WakeAll;
  }

  lemma {:induction false} NewcomersStayOut(s: State, a: Action, h: Tid)
    requires Enabled(s, a) && h in s.pcs && !Coming(s.pcs[h]) && !a.Step?
    ensures h in Next(s, a).pcs && !Coming(Next(s, a).pcs[h])
  {
    hide CanStep, StepOf, BeginClose, SignalCompletion, PostMessage, Raise;
  }

  lemma {:induction false} NextStaysOut(s: State, a: Action, h: Tid)
    requires Enabled(s, a) && h in s.pcs && !Coming(s.pcs[h]) && s.e.deviceClose > 0
    ensures h in Next(s, a).pcs && !Coming(Next(s, a).pcs[h])
  {
    if !a.Step? {
      NewcomersStayOut(s, a, h);
    } else if a.t != h {
      hide Enabled, StepOf;
      PlaceOfOther(s, a.t, a.choice, h);
    } else if s.pcs[h] == Broadcast {
      BroadcastIs(s, h, a.choice);
    } else {
      hide Enabled, StepOf;
      StaysOut(s, h, a.choice);
    }
  }

  lemma {:induction false} RunStaysOut(s: State, run: seq<Action>, k: Tid, h: Tid)
    requires Inv(s) && CanRun(s, run) && Closes(s, run, k) && h in s.pcs && !Coming(s.pcs[h])
    ensures h in Run(s, run).pcs && !Coming(Run(s, run).pcs[h])
    decreases |run|
  {
    hide Next, Enabled, Coming, InClose, Locks, SleepersHaveWaker, Conserved, Announced;
    if run != [] {
      CloseWasAnnounced(s, k);
      NextStaysOut(s, run[0], h);
      NextInv(s, run[0]);
      RunStaysOut(Next(s, run[0]), run[1..], k, h);
    }
  }

  /** While a close is announced nobody else begins to handle events: a thread that has not looked at device_close
      before is not let in until the close is done, in any interleaving. */
  lemma {:induction false} CloseKeepsOut(s: State, before: seq<Action>, run: seq<Action>, k: Tid, h: Tid)
    requires Initial(s) && CanRun(s, before) && CanRun(Run(s, before), run) && Closes(Run(s, before), run, k)
    requires h in Run(s, before).pcs && !Coming(Run(s, before).pcs[h])
    ensures var s' := Run(Run(s, before), run); h in s'.pcs && !Coming(s'.pcs[h])
  {
    InitialInv(s);
    RunInv(s, before);
    RunStaysOut(Run(s, before), run, k, h);
  }
}
