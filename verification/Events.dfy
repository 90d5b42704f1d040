/** The event data of a context and every critical section of event_data_lock in io.c, core.c and
    hotplug.c: the pending-event flags, the OS event that interrupts the event handler, the count of
    closes in progress, the hotplug messages and the completed transfers waiting for the handler. */
module Events {
  type Id = nat
  type Message = nat

  datatype Flag = SOURCES_MODIFIED | USER_INTERRUPT | HOTPLUG_CB_DEREGISTERED
                | HOTPLUG_MSG_PENDING | TRANSFER_COMPLETED | DEVICE_CLOSE

  datatype EventData = EventData(flags: set<Flag>, signalled: bool, deviceClose: nat,
                                 hotplugMsgs: seq<Message>, completed: seq<Id>)

  const QUIET := EventData({}, false, 0, [], [])

  /** Set a flag; only the first pending one signals the event. */
  function Raise(e: EventData, f: Flag): EventData {
    e.(flags := e.flags + {f}, signalled := e.signalled || e.flags == {})
  }

  /** Clear the event if nothing is pending any more. */
  function Settle(e: EventData): EventData {
    if e.flags == {} then e.(signalled := false) else e
  }

  /** usbi_signal_transfer_completion */
  function SignalCompletion(e: EventData, t: Id): EventData {
    Raise(e.(completed := e.completed + [t]), TRANSFER_COMPLETED)
  }

  /** usbi_hotplug_notification */
  function PostMessage(e: EventData, m: Message): EventData {
    Raise(e.(hotplugMsgs := e.hotplugMsgs + [m]), HOTPLUG_MSG_PENDING)
  }

  /** What libusb_close does before it takes the events lock, and before it gives it back. */
  function BeginClose(e: EventData): EventData {
    if e.deviceClose == 0 then Raise(e.(deviceClose := 1), DEVICE_CLOSE)
    else e.(deviceClose := e.deviceClose + 1, signalled := e.signalled || e.flags == {})
  }

  function EndClose(e: EventData): EventData
    requires e.deviceClose > 0
  {
    Settle(e.(deviceClose := e.deviceClose - 1,
              flags := if e.deviceClose == 1 then e.flags - {DEVICE_CLOSE} else e.flags))
  }

  /** The first critical section of handle_events; `ok` is false if the event data cannot be allocated. */
  function PrepareSources(e: EventData, ok: bool): EventData {
    if SOURCES_MODIFIED !in e.flags || !ok then e else Settle(e.(flags := e.flags - {SOURCES_MODIFIED}))
  }

  /** The first critical section of handle_event_trigger: it takes over the hotplug messages and, if
      some completed, the transfers; in that case the event is left for the second section. */
  function Trigger(e: EventData): EventData {
    var e' := e.(flags := e.flags - {USER_INTERRUPT, HOTPLUG_CB_DEREGISTERED, HOTPLUG_MSG_PENDING},
                 hotplugMsgs := if HOTPLUG_MSG_PENDING in e.flags then [] else e.hotplugMsgs);
    if TRANSFER_COMPLETED in e.flags then e'.(completed := []) else Settle(e')
  }

  function TakenMessages(e: EventData): seq<Message> {
    if HOTPLUG_MSG_PENDING in e.flags then e.hotplugMsgs else []
  }

  /** The second critical section of handle_event_trigger; `rest` is what an error left undelivered. */
  function TriggerEnd(e: EventData, rest: seq<Id>): EventData {
    Settle(if rest != [] then e.(completed := rest + e.completed)
           else if e.completed == [] then e.(flags := e.flags - {TRANSFER_COMPLETED})
           else e)
  }

  lemma {:induction false} OnlyClosesCount(e: EventData, ok: bool, rest: seq<Id>)
    ensures BeginClose(e).deviceClose == e.deviceClose + 1
    ensures e.deviceClose > 0 ==> EndClose(e).deviceClose == e.deviceClose - 1
    ensures PrepareSources(e, ok).deviceClose == Trigger(e).deviceClose == TriggerEnd(e, rest).deviceClose
            == e.deviceClose
  {
  }

  /** What each section does to the two queues. */
  lemma {:induction false} Queues(e: EventData, ok: bool, rest: seq<Id>)
    ensures PrepareSources(e, ok).completed == BeginClose(e).completed == e.completed
    ensures PrepareSources(e, ok).hotplugMsgs == BeginClose(e).hotplugMsgs == e.hotplugMsgs
    ensures e.deviceClose > 0 ==> EndClose(e).completed == e.completed && EndClose(e).hotplugMsgs == e.hotplugMsgs
    ensures Trigger(e).completed == if TRANSFER_COMPLETED in e.flags then [] else e.completed
    ensures TakenMessages(e) + Trigger(e).hotplugMsgs == e.hotplugMsgs
    ensures TriggerEnd(e, rest).completed == rest + e.completed && TriggerEnd(e, rest).hotplugMsgs == e.hotplugMsgs
  {
    assert [] + e.completed == e.completed;
    assert [] + e.hotplugMsgs == e.hotplugMsgs == e.hotplugMsgs + [];
  }

  /** The state of the event data whenever event_data_lock is free. While the handler is between the two
      sections of handle_event_trigger the transfers flag stays set without transfers. */
  ghost predicate Agree(e: EventData, draining: bool) {
    && (e.signalled <==> e.flags != {})
    && (e.deviceClose > 0 <==> DEVICE_CLOSE in e.flags)
    && (e.hotplugMsgs != [] <==> HOTPLUG_MSG_PENDING in e.flags)
    && (e.completed != [] || draining <==> TRANSFER_COMPLETED in e.flags)
  }

  lemma {:induction false} RaiseKeepsAgreement(e: EventData, f: Flag, t: Id, m: Message, draining: bool)
    requires Agree(e, draining)
    ensures f in {SOURCES_MODIFIED, USER_INTERRUPT, HOTPLUG_CB_DEREGISTERED} ==> Agree(Raise(e, f), draining)
    ensures Agree(SignalCompletion(e, t), draining)
    ensures Agree(PostMessage(e, m), draining)
    ensures Agree(BeginClose(e), draining) && BeginClose(e).signalled
    ensures e.deviceClose > 0 ==> Agree(EndClose(e), draining)
  {
    assert f in Raise(e, f).flags;
    assert TRANSFER_COMPLETED in SignalCompletion(e, t).flags;
    assert HOTPLUG_MSG_PENDING in PostMessage(e, m).flags;
    assert DEVICE_CLOSE in BeginClose(e).flags;
  }

  /** No event handler can block while a device is being closed. */
  lemma {:induction false} BeingClosed(e: EventData, draining: bool)
    requires Agree(e, draining) && e.deviceClose > 0
    ensures e.signalled
  {
    assert DEVICE_CLOSE in e.flags;
  }

  lemma {:induction false} HandlerKeepsAgreement(e: EventData, ok: bool, rest: seq<Id>)
    ensures Agree(e, false) ==> Agree(PrepareSources(e, ok), false)
    ensures Agree(e, false) ==> Agree(Trigger(e), TRANSFER_COMPLETED in e.flags)
    ensures Agree(e, true) ==> Agree(TriggerEnd(e, rest), false)
  {
    assert TRANSFER_COMPLETED in e.flags ==> TRANSFER_COMPLETED in Trigger(e).flags;
  }

  /** The event data as the fields of a context. Every method runs under event_data_lock, except that
      HandleEventTrigger gives the lock up while transfers are handed to the backend. */
  class EventContext {
    var eventFlags: set<Flag>
    var event: bool
    var deviceClose: nat
    var hotplugMsgs: seq<Message>
    var completedTransfers: seq<Id>
    // between the two critical sections of handle_event_trigger
    ghost var draining: bool
    // the transfers ever signalled, and those handed to the backend's handle_transfer_completion
    ghost var everSignalled: seq<Id>
    ghost var handed: seq<Id>

    ghost function Data(): EventData
      reads this
    {
      EventData(eventFlags, event, deviceClose, hotplugMsgs, completedTransfers)
    }

    /** Nothing signalled is lost, reordered or handed over twice. */
    ghost predicate Valid()
      reads this
    {
      Agree(Data(), draining) && (!draining ==> handed + completedTransfers == everSignalled)
    }

    constructor ()
      ensures Valid() && Data() == QUIET && handed == [] && !draining
    {
      eventFlags, event, deviceClose, hotplugMsgs, completedTransfers := {}, false, 0, [], [];
      draining, everSignalled, handed := false, [], [];
    }

    method SignalTransferCompletion(itransfer: Id)
      requires Valid()
      modifies this
      ensures Valid() && Data() == SignalCompletion(old(Data()), itransfer)
      ensures everSignalled == old(everSignalled) + [itransfer] && handed == old(handed) && draining == old(draining)
    {
      RaiseKeepsAgreement(Data(), USER_INTERRUPT, itransfer, 0, draining);
      var wasQuiet := eventFlags == {};
      eventFlags := eventFlags + {TRANSFER_COMPLETED};
      completedTransfers := completedTransfers + [itransfer];
      if wasQuiet {
        event := true;
      }
      everSignalled := everSignalled + [itransfer];
    }

    method HotplugNotification(msg: Message)
      requires Valid()
      modifies `eventFlags, `hotplugMsgs, `event
      ensures Valid() && Data() == PostMessage(old(Data()), msg)
    {
      RaiseKeepsAgreement(Data(), USER_INTERRUPT, 0, msg, draining);
      var wasQuiet := eventFlags == {};
      eventFlags := eventFlags + {HOTPLUG_MSG_PENDING};
      hotplugMsgs := hotplugMsgs + [msg];
      if wasQuiet {
        event := true;
      }
    }

    /** libusb_interrupt_event_handler, usbi_event_source_notification and the end of
        libusb_hotplug_deregister_callback */
    method Notify(f: Flag)
      requires Valid() && f in {SOURCES_MODIFIED, USER_INTERRUPT, HOTPLUG_CB_DEREGISTERED}
      modifies `eventFlags, `event
      ensures Valid() && Data() == Raise(old(Data()), f)
    {
      RaiseKeepsAgreement(Data(), f, 0, 0, draining);
      var wasQuiet := eventFlags == {};
      eventFlags := eventFlags + {f};
      if wasQuiet {
        event := true;
      }
    }

    method AnnounceClose()
      requires Valid()
      modifies `eventFlags, `deviceClose, `event
      ensures Valid() && event && Data() == BeginClose(old(Data()))
    {
      RaiseKeepsAgreement(Data(), USER_INTERRUPT, 0, 0, draining);
      var wasQuiet := eventFlags == {};
      if deviceClose == 0 {
        eventFlags := eventFlags + {DEVICE_CLOSE};
      }
      deviceClose := deviceClose + 1;
      if wasQuiet {
        event := true;
      }
    }

    method FinishClose()
      requires Valid() && deviceClose > 0
      modifies `eventFlags, `deviceClose, `event
      ensures Valid() && Data() == EndClose(old(Data()))
    {
      RaiseKeepsAgreement(Data(), USER_INTERRUPT, 0, 0, draining);
      deviceClose := deviceClose - 1;
      if deviceClose == 0 {
        eventFlags := eventFlags - {DEVICE_CLOSE};
      }
      if eventFlags == {} {
        event := false;
      }
    }

    /** One thing another thread may do while the holder of the events lock does not hold event_data_lock. A close
        can only be announced: withdrawing it takes the events lock. */
    method OtherStep() returns (ghost news: seq<Id>)
      requires Valid()
      modifies this
      ensures Valid() && draining == old(draining) && handed == old(handed) && deviceClose >= old(deviceClose)
      ensures completedTransfers == old(completedTransfers) + news && everSignalled == old(everSignalled) + news
    {
      news := [];
      if {
        case true => var t :| 0 <= t; SignalTransferCompletion(t); news := [t];
        case true => var m :| 0 <= m; HotplugNotification(m);
        case true => Notify(SOURCES_MODIFIED);
        case true => Notify(USER_INTERRUPT);
        case true => Notify(HOTPLUG_CB_DEREGISTERED);
        case true => AnnounceClose();
      }
    }

    /** What other threads do meanwhile. */
    method OthersRun() returns (ghost news: seq<Id>)
      requires Valid()
      modifies this
      ensures Valid() && draining == old(draining) && handed == old(handed) && deviceClose >= old(deviceClose)
      ensures completedTransfers == old(completedTransfers) + news && everSignalled == old(everSignalled) + news
    {
      hide Agree;
      news := [];
      var rounds :| 0 <= rounds;
      for i := 0 to rounds
        invariant Valid() && draining == old(draining) && handed == old(handed) && deviceClose >= old(deviceClose)
        invariant completedTransfers == old(completedTransfers) + news && everSignalled == old(everSignalled) + news
      {
        ghost var more := OtherStep();
        news := news + more;
      }
    }

    /** libusb_close, but for what do_close does to the handle: unless the caller is the event handler itself, the
        event stays signalled from the announcement until the close is done, and no transfer gets lost. */
    method Close(handlingEvents: bool) returns (ghost news: seq<Id>)
      requires Valid() && !draining
      modifies this
      ensures Valid() && !draining && handed == old(handed)
      ensures completedTransfers == old(completedTransfers) + news && everSignalled == old(everSignalled) + news
      ensures if handlingEvents then deviceClose == old(deviceClose) else deviceClose >= old(deviceClose)
    {
      news := [];
      if !handlingEvents {
        AnnounceClose();
        news := OthersRun();
        assert event by { BeingClosed(Data(), draining); }
        FinishClose();
      }
    }

    /** The second critical section of handle_event_trigger. */
    method PutBack(completed: seq<Id>)
      requires Valid() && draining && handed + completed + completedTransfers == everSignalled
      modifies `completedTransfers, `eventFlags, `event, `draining
      ensures Valid() && !draining && Data() == TriggerEnd(old(Data()), completed)
    {
      HandlerKeepsAgreement(Data(), true, completed);
      if completed != [] {
        completedTransfers := completed + completedTransfers;
      } else if completedTransfers == [] {
        eventFlags := eventFlags - {TRANSFER_COMPLETED};
      }
      if eventFlags == {} {
        event := false;
      }
      draining := false;
      assert Data() == TriggerEnd(old(Data()), completed);
      assert handed + completedTransfers == everSignalled;
    }

    /** The rest of handle_event_trigger once it has taken over the completed transfers: hand them to the
        backend without the lock, stop at an error, and put back what is left in front of the transfers
        signalled meanwhile. */
    method CompleteTransfers(taken: seq<Id>) returns (r: int)
      requires Valid() && draining && taken != []
      requires handed + taken + completedTransfers == everSignalled
      modifies this
      ensures Valid() && !draining
      ensures handed <= everSignalled && old(everSignalled) <= everSignalled
      ensures r == 0 ==> old(handed) + taken == handed
      ensures r != 0 ==> exists n :: 0 < n <= |taken| && handed == old(handed) + taken[..n]
    {
      hide Agree;
      var completed := taken;
      ghost var n := 0;
      r := 0;
      while completed != []
        invariant Valid() && draining && n <= |taken|
        invariant completed == taken[n..] && handed == old(handed) + taken[..n]
        invariant handed + completed + completedTransfers == everSignalled
        invariant old(everSignalled) <= everSignalled && r == 0
        decreases |completed|
      {
        handed := handed + [completed[0]];
        completed, n := completed[1..], n + 1;
        assert handed + completed + completedTransfers == everSignalled;
        ghost var news := OthersRun();
        assert handed + completed + completedTransfers == everSignalled;
        r := *;
        if r != 0 {
          break;
        }
      }
      PutBack(completed);
    }

    /** The first critical section of handle_event_trigger. */
    method TakeOver() returns (msgs: seq<Message>, hotplugEvent: bool, completed: seq<Id>)
      requires Valid() && !draining
      modifies `eventFlags, `event, `hotplugMsgs, `completedTransfers, `draining
      ensures Agree(Data(), draining) && Data() == Trigger(old(Data()))
      ensures msgs == TakenMessages(old(Data()))
      ensures hotplugEvent <==> HOTPLUG_CB_DEREGISTERED in old(eventFlags) || HOTPLUG_MSG_PENDING in old(eventFlags)
      ensures completed == old(completedTransfers) && completedTransfers == [] && (draining <==> completed != [])
    {
      HandlerKeepsAgreement(Data(), true, []);
      msgs, hotplugEvent, completed := [], false, [];
      eventFlags := eventFlags - {USER_INTERRUPT};
      if HOTPLUG_CB_DEREGISTERED in eventFlags {
        eventFlags := eventFlags - {HOTPLUG_CB_DEREGISTERED};
        hotplugEvent := true;
      }
      if HOTPLUG_MSG_PENDING in eventFlags {
        eventFlags := eventFlags - {HOTPLUG_MSG_PENDING};
        hotplugEvent := true;
        assert hotplugMsgs != [];
        msgs, hotplugMsgs := hotplugMsgs, [];
      }
      if TRANSFER_COMPLETED in eventFlags {
        assert completedTransfers != [];
        completed, completedTransfers, draining := completedTransfers, [], true;
      } else if eventFlags == {} {
        event := false;
      }
      assert Data() == Trigger(old(Data()));
    }

    /** handle_event_trigger, up to the dispatch of the hotplug messages it returns. Transfers are handed
        over in the order they were signalled, all that were waiting unless the backend fails. */
    method HandleEventTrigger() returns (r: int, msgs: seq<Message>, hotplugEvent: bool)
      requires Valid() && !draining
      modifies this
      ensures Valid() && !draining
      ensures msgs == TakenMessages(old(Data()))
      ensures hotplugEvent <==> HOTPLUG_CB_DEREGISTERED in old(eventFlags) || HOTPLUG_MSG_PENDING in old(eventFlags)
      ensures old(handed) <= handed <= everSignalled && old(everSignalled) <= everSignalled
      ensures r == 0 ==> old(everSignalled) <= handed
      ensures r != 0 ==> |old(handed)| < |handed|
    {
      assert handed + completedTransfers == everSignalled;
      hide *;
      var completed;
      msgs, hotplugEvent, completed := TakeOver();
      r := 0;
      if completed != [] {
        assert handed + completed + completedTransfers == everSignalled;
        r := CompleteTransfers(completed);
      } else {
        assert handed == everSignalled;
      }
    }
  }
}
