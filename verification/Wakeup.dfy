/** The threads of one context: any number of them in libusb_handle_events_timeout_completed and in
    libusb_close, competing for the events lock or asleep on the waiters condition. One action is one
    critical section, or one of the accesses to event_handler_active outside of any. */
module Wakeup {
  import opened Events

  type Tid = nat

  /** Where a thread is; the comment names what it does next. */
  datatype Pc =
    | Idle
    // libusb_handle_events_timeout_completed
    | TryClose           // libusb_try_lock_events reads device_close
    | TryLock            // ... and tries the events lock
    | SetActive          // ... and sets event_handler_active
    | Prepare            // handle_events looks for new event sources
    | Poll               // usbi_wait_for_events
    | Triggered          // first critical section of handle_event_trigger
    | Drain              // hand the next completed transfer to the backend
    | DrainEnd(r: bool)  // second critical section; r: an error occurred
    | Dispatch(r: bool)  // usbi_hotplug_process offers the messages taken over to the callbacks
    | Process            // timer, backend event handling
    | WaitersLock        // libusb_lock_event_waiters
    | CheckDone          // look at *completed
    | ActiveClose        // libusb_event_handler_active reads device_close
    | ActiveRead         // ... and event_handler_active
    | GoToSleep          // libusb_wait_for_event
    | Asleep
    | Woken              // get the waiters lock back
    | WaitersUnlock(retry: bool)
    // libusb_close
    | CloseBegin         // announce the close
    | CloseLock          // libusb_lock_events takes the events lock
    | CloseActive        // ... and sets event_handler_active
    | Closing            // do_close
    | CloseEnd           // withdraw the announcement
    // libusb_unlock_events
    | ClearActive | Unlock | Broadcast

  /** `taken` and `news` are what the handler has taken over, `handed` and `messages` what it has passed on. */
  datatype State = State(pcs: map<Tid, Pc>, eventsLock: set<Tid>, handlerActive: bool, waitersLock: set<Tid>,
                         e: EventData, taken: seq<Id>, news: seq<Message>, messages: seq<Message>, handed: seq<Id>,
                         everSignalled: seq<Id>, everPosted: seq<Message>)

  /** `choice` settles what the model leaves open: whether the caller's completed flag is set, whether
      the operating system or the backend reports an error. */
  datatype Action =
    | HandleEvents(t: Tid)
    | CloseHandle(t: Tid)
    | Step(t: Tid, choice: bool)
    | TimeOut(t: Tid)
    | Signal(transfer: Id)
    | Post(msg: Message)
    | Notify(f: Flag)

  /** Only taking a mutex can block. */
  predicate CanStep(s: State, pc: Pc) {
    match pc
    case CloseLock => s.eventsLock == {}
    case WaitersLock => s.waitersLock == {}
    case Woken => s.waitersLock == {}
    case Broadcast => s.waitersLock == {}
    case CloseEnd => s.e.deviceClose > 0
    case _ => true
  }

  predicate Enabled(s: State, a: Action) {
    match a
    case HandleEvents(t) => t in s.pcs && s.pcs[t] == Idle
    case CloseHandle(t) => t in s.pcs && s.pcs[t] == Idle
    case TimeOut(t) => t in s.pcs && s.pcs[t] == Asleep
    case Step(t, _) => t in s.pcs && s.pcs[t] != Idle && s.pcs[t] != Asleep && CanStep(s, s.pcs[t])
    case Signal(_) => true
    case Post(_) => true
    case Notify(f) => f in {SOURCES_MODIFIED, USER_INTERRUPT, HOTPLUG_CB_DEREGISTERED}
  }

  function Goto(s: State, t: Tid, pc: Pc): State {
    s.(pcs := s.pcs[t := pc])
  }

  /** usbi_cond_broadcast wakes every sleeper. */
  function WakeAll(pcs: map<Tid, Pc>): (r: map<Tid, Pc>)
    ensures r.Keys == pcs.Keys
  {
    map t | t in pcs :: if pcs[t] == Asleep then Woken else pcs[t]
  }

  function StepOf(s: State, t: Tid, choice: bool): State
    requires Enabled(s, Step(t, choice))
  {
    match s.pcs[t]
    case TryClose => Goto(s, t, if s.e.deviceClose > 0 then WaitersLock else TryLock)
    case TryLock =>
      if s.eventsLock == {} then Goto(s.(eventsLock := {t}), t, SetActive) else Goto(s, t, WaitersLock)
    // a caller whose completed flag is set handles no events
    case SetActive => Goto(s.(handlerActive := true), t, if choice then ClearActive else Prepare)
    case Prepare =>
      Goto(s.(e := PrepareSources(s.e, choice)), t, if SOURCES_MODIFIED in s.e.flags && !choice then ClearActive
        else Poll)
    // the wait returns at once if the event is signalled; else on other activity, a timeout or an error
    case Poll => Goto(s, t, if !choice then ClearActive else if s.e.signalled then Triggered else Process)
    case Triggered =>
      var taken := if TRANSFER_COMPLETED in s.e.flags then s.e.completed else [];
      Goto(s.(e := Trigger(s.e), taken := taken, news := TakenMessages(s.e)), t,
           if TRANSFER_COMPLETED in s.e.flags then Drain else Dispatch(false))
    case Drain =>
      if s.taken == [] then Goto(s, t, DrainEnd(false))
      else Goto(s.(handed := s.handed + [s.taken[0]], taken := s.taken[1..]), t, if choice then Drain
        else DrainEnd(true))
    case DrainEnd(r) => Goto(s.(e := TriggerEnd(s.e, s.taken), taken := []), t, Dispatch(r))
    case Dispatch(r) =>
      Goto(s.(messages := s.messages + s.news, news := []), t, if r then ClearActive else Process)
    case Process => Goto(s, t, ClearActive)
    case WaitersLock => Goto(s.(waitersLock := {t}), t, CheckDone)
    case CheckDone => Goto(s, t, if choice then WaitersUnlock(false) else ActiveClose)
    case ActiveClose => Goto(s, t, if s.e.deviceClose > 0 then GoToSleep else ActiveRead)
    case ActiveRead => Goto(s, t, if s.handlerActive then GoToSleep else WaitersUnlock(true))
    case GoToSleep => Goto(s.(waitersLock := {}), t, Asleep)
    case Woken => Goto(s.(waitersLock := {t}), t, WaitersUnlock(false))
    case WaitersUnlock(retry) => Goto(s.(waitersLock := {}), t, if retry then TryClose else Idle)
    case CloseBegin => Goto(s.(e := BeginClose(s.e)), t, CloseLock)
    case CloseLock => Goto(s.(eventsLock := {t}), t, CloseActive)
    case CloseActive => Goto(s.(handlerActive := true), t, Closing)
    case Closing => Goto(s, t, CloseEnd)
    case CloseEnd => Goto(s.(e := EndClose(s.e)), t, ClearActive)
    case ClearActive => Goto(s.(handlerActive := false), t, Unlock)
    case Unlock => Goto(s.(eventsLock := {}), t, Broadcast)
    case Broadcast => s.(pcs := WakeAll(s.pcs)[t := Idle])
    case _ => s
  }

  function Next(s: State, a: Action): State
    requires Enabled(s, a)
  {
    match a
    case HandleEvents(t) => Goto(s, t, TryClose)
    case CloseHandle(t) => Goto(s, t, CloseBegin)
    case TimeOut(t) => Goto(s, t, Woken)
    case Signal(x) => s.(e := SignalCompletion(s.e, x), everSignalled := s.everSignalled + [x])
    case Post(m) => s.(e := PostMessage(s.e, m), everPosted := s.everPosted + [m])
    case Notify(f) => s.(e := Raise(s.e, f))
    case Step(t, choice) => StepOf(s, t, choice)
  }

  ghost predicate CanRun(s: State, run: seq<Action>)
    decreases |run|
  {
    run == [] || (Enabled(s, run[0]) && CanRun(Next(s, run[0]), run[1..]))
  }

  ghost function Run(s: State, run: seq<Action>): State
    requires CanRun(s, run)
    decreases |run|
  {
    if run == [] then s else Run(Next(s, run[0]), run[1..])
  }

  /** A context just initialised, with some number of threads. */
  ghost predicate Initial(s: State) {
    && (forall t :: t in s.pcs ==> s.pcs[t] == Idle)
    && s.eventsLock == {} && s.waitersLock == {} && !s.handlerActive
    && s.e == QUIET && s.taken == [] && s.news == [] && s.messages == [] && s.handed == [] && s.everSignalled == []
    && s.everPosted == []
  }
}
