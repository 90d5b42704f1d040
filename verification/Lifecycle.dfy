/** The life of transfers under every interleaving of submission, cancellation, timeout, completion and
    close. One action is one critical section; a timeout scan keeps flying_transfers_lock over several. */
module Lifecycle {
  import opened IntrusiveList
  import opened Deadlines
  import opened TransferState

  type Id = nat

  /** Who got the backend to accept a cancellation: the user, or the timeout scan of time `at`. */
  datatype Canceller = User | Timeout(at: Timespec)

  /** Where a transfer is. Submitting: listed, its lock held while the backend submits it. Failed: the
      backend refused, its submitter has yet to unlist it. Reaping: the event handler has decided its
      status. Completing: unlisted, still flagged in flight. Dropped: its handle was closed. */
  datatype Phase = Idle | Submitting | InFlight | Failed
                 | Reaping(status: Status, cancelled: bool) | Completing(status: Status, cancelled: bool) | Dropped

  datatype Xfer = Xfer(phase: Phase, due: Timespec, seqno: nat, flags: Flags, accepted: Option<Canceller>)

  /** The holder of flying_transfers_lock between actions: nobody, or a scan at position `pos` of the list. In
      handle_timeout it has `chosen` the transfer there, marked it as handled and may have to wait for the
      transfer's lock; then, between the cancel request and the TIMED_OUT flag, `mark` is set. */
  datatype Lock = Free | Scan(pos: nat, at: Timespec, trigger: bool, mark: Option<int>, chosen: bool)

  /** What the user was told, with the transfer as it was then. */
  datatype Report = Report(t: Id, status: Status, cancelled: bool, x: Xfer)

  datatype State = State(flying: seq<Id>, xs: map<Id, Xfer>, lock: Lock, now: Timespec, submissions: nat,
                         usingTimer: bool, timer: Option<Timespec>, timerFailed: bool, closedInFlight: bool,
                         reports: seq<Report>)

  datatype Action =
    | Tick(now: Timespec)
    | SubmitBegin(t: Id, due: Timespec, timerOk: bool)
    | SubmitEnd(t: Id, ok: bool, osHandles: bool)
    | SubmitUndo(t: Id, timerOk: bool)
    | UserCancel(t: Id, answer: int)
    | ScanBegin(trigger: bool)
    | ScanPass
    | ScanChoose
    | ScanCancel(answer: int)
    | ScanMark
    | ScanEnd(timerOk: bool)
    | Reap(t: Id, status: Status)
    | ReapCancelled(t: Id)
    | Unlist(t: Id, timerOk: bool)
    | Complete(t: Id)
    | Drop(t: Id)

  predicate Listed(x: Xfer) {
    x.phase.Submitting? || x.phase.InFlight? || x.phase.Failed? || x.phase.Reaping?
  }

  predicate Skip(x: Xfer) {
    x.flags.handled || x.flags.osHandles
  }

  predicate Known(s: State) {
    forall i :: 0 <= i < |s.flying| ==> s.flying[i] in s.xs
  }

  /** The listed transfers, in list order. */
  function Queue(s: State): (q: seq<Xfer>)
    requires Known(s)
    ensures |q| == |s.flying| && forall i :: 0 <= i < |q| ==> q[i] == s.xs[s.flying[i]]
  {
    seq(|s.flying|, i requires 0 <= i < |s.flying| => s.xs[s.flying[i]])
  }

  function Items(q: seq<Xfer>): (its: seq<Item>)
    ensures |its| == |q| && forall i :: 0 <= i < |its| ==> its[i] == Item(q[i].due, Skip(q[i]))
  {
    seq(|q|, i requires 0 <= i < |q| => Item(q[i].due, Skip(q[i])))
  }

  predicate Enabled(s: State, a: Action)
    requires Known(s)
  {
    match a
    case Tick(now) => Normal(now)
    case SubmitBegin(t, due, _) => s.lock.Free? && t in s.xs && s.xs[t].phase.Idle? && Normal(due)
    case SubmitEnd(t, _, _) => t in s.xs && s.xs[t].phase.Submitting?
    case SubmitUndo(t, _) => s.lock.Free? && t in s.xs && s.xs[t].phase.Failed?
    case UserCancel(t, _) => t in s.xs && !s.xs[t].phase.Submitting?
    case ScanBegin(_) => s.lock.Free?
    case ScanPass => s.lock.Scan? && s.lock.mark == None && !s.lock.chosen && s.lock.pos < |s.flying|
      && var x := s.xs[s.flying[s.lock.pos]]; IsSet(x.due) && Skip(x)
    case ScanChoose => s.lock.Scan? && s.lock.mark == None && !s.lock.chosen && s.lock.pos < |s.flying|
      && var x := s.xs[s.flying[s.lock.pos]]; IsSet(x.due) && !Skip(x) && !After(x.due, s.lock.at)
    // the submitter holds the transfer's lock until the backend has answered
    case ScanCancel(_) => s.lock.Scan? && s.lock.chosen && s.lock.pos < |s.flying|
      && !s.xs[s.flying[s.lock.pos]].phase.Submitting?
    case ScanMark => s.lock.Scan? && s.lock.mark.Some? && s.lock.pos < |s.flying|
    case ScanEnd(_) => s.lock.Scan? && s.lock.mark == None && !s.lock.chosen
      && (s.lock.pos < |s.flying| ==>
            var x := s.xs[s.flying[s.lock.pos]]; !IsSet(x.due) || (!Skip(x) && After(x.due, s.lock.at)))
    case Reap(t, _) => t in s.xs && s.xs[t].phase.InFlight?
    // the backend reports a cancellation only of a transfer it accepted to cancel
    case ReapCancelled(t) => s.lock.Free? && t in s.xs && s.xs[t].phase.InFlight? && SUCCESS in s.xs[t].flags.answers
    case Unlist(t, _) => s.lock.Free? && t in s.xs && s.xs[t].phase.Reaping?
    case Complete(t) => t in s.xs && s.xs[t].phase.Completing?
    // libusb_close drops what is listed for its handle, one by one; nothing else is using it by then
    case Drop(t) => s.lock.Free? && t in s.xs && s.xs[t].phase.InFlight?
  }

  function IndexOf(ts: seq<Id>, t: Id): (k: nat)
    ensures k <= |ts| && (t in ts ==> k < |ts| && ts[k] == t)
  {
    if ts == [] || ts[0] == t then 0 else 1 + IndexOf(ts[1..], t)
  }

  /** usbi_arm_timer or usbi_disarm_timer */
  function SetTimer(s: State, deadline: Option<Timespec>, ok: bool): State {
    if !s.usingTimer then s else if ok then s.(timer := deadline) else s.(timerFailed := true)
  }

  /** List the transfer `t`, now `x`, at position k. */
  function Enlist(s: State, t: Id, x: Xfer, k: nat): (s': State)
    requires k <= |s.flying|
    ensures Known(s) ==> Known(s')
  {
    s.(flying := s.flying[..k] + [t] + s.flying[k..], xs := s.xs[t := x])
  }

  /** Unlist the k-th transfer, now `x`. */
  function Delist(s: State, k: nat, x: Xfer): (s': State)
    requires k < |s.flying|
    ensures Known(s) ==> Known(s')
  {
    s.(flying := s.flying[..k] + s.flying[k + 1..], xs := s.xs[s.flying[k] := x])
  }

  /** remove_from_flying_list, the phase becoming `phase`. */
  function RemoveFromList(s: State, t: Id, phase: Phase, timerOk: bool): State
    requires Known(s) && t in s.xs && t in s.flying
  {
    var k := IndexOf(s.flying, t);
    var s' := Delist(s, k, s.xs[t].(phase := phase));
    if IsSet(s.xs[t].due) && k == 0 then SetTimer(s', LeastPending(Items(Queue(s'))), timerOk) else s'
  }

  /** The first critical section of libusb_submit_transfer, for a transfer that is not in flight. */
  function Submit(s: State, t: Id, due: Timespec, timerOk: bool): State
    requires Known(s) && t in s.xs
  {
    var k := InsertionPoint(Timeouts(Items(Queue(s))), due);
    var x := s.xs[t].(due := due, flags := CLEAR, accepted := None);
    var arm := s.usingTimer && IsSet(due) && k == 0;
    if arm && !timerOk then
      s.(xs := s.xs[t := x], timerFailed := true)
    else
      Enlist(s, t, x.(phase := Submitting, seqno := s.submissions), k)
        .(submissions := s.submissions + 1, timer := if arm then Some(due) else s.timer)
  }

  /** libusb_cancel_transfer on behalf of `who`. */
  function CancelBy(x: Xfer, who: Canceller, answer: int): Xfer {
    var f := Cancel(x.flags, answer).0;
    x.(flags := f, accepted := if f != x.flags && answer == SUCCESS then Some(who) else x.accepted)
  }

  function Next(s: State, a: Action): State
    requires Known(s) && Enabled(s, a)
  {
    match a
    case Tick(now) => s.(now := now)
    case SubmitBegin(t, due, timerOk) => Submit(s, t, due, timerOk)
    case SubmitEnd(t, ok, osHandles) =>
      var x := s.xs[t];
      s.(xs := s.xs[t := x.(phase := if ok then InFlight else Failed,
                            flags := x.flags.(inFlight := ok, osHandles := x.flags.osHandles || osHandles))])
    case SubmitUndo(t, timerOk) =>
      if t !in s.flying then s
      else RemoveFromList(s, t, Idle, timerOk)
    case UserCancel(t, answer) => s.(xs := s.xs[t := CancelBy(s.xs[t], User, answer)])
    case ScanBegin(trigger) => s.(lock := Scan(0, s.now, trigger, None, false))
    case ScanPass => s.(lock := s.lock.(pos := s.lock.pos + 1))
    case ScanChoose =>
      var t := s.flying[s.lock.pos];
      s.(xs := s.xs[t := s.xs[t].(flags := s.xs[t].flags.(handled := true))], lock := s.lock.(chosen := true))
    case ScanCancel(answer) =>
      var t := s.flying[s.lock.pos];
      var x := s.xs[t];
      s.(xs := s.xs[t := CancelBy(x, Timeout(s.lock.at), answer)],
         lock := s.lock.(chosen := false, mark := Some(Cancel(x.flags, answer).1)))
    case ScanMark =>
      var t := s.flying[s.lock.pos];
      var x := s.xs[t].(flags := s.xs[t].flags.(timedOut := s.xs[t].flags.timedOut || s.lock.mark == Some(SUCCESS)));
      s.(xs := s.xs[t := x], lock := s.lock.(pos := s.lock.pos + 1, mark := None))
    case ScanEnd(timerOk) =>
      var s' := if s.lock.trigger then SetTimer(s, LeastPending(Items(Queue(s))), timerOk) else s;
      s'.(lock := Free)
    case Reap(t, status) => s.(xs := s.xs[t := s.xs[t].(phase := Reaping(status, false))])
    case ReapCancelled(t) =>
      var status := if s.xs[t].flags.timedOut then TIMED_OUT else CANCELLED;
      s.(xs := s.xs[t := s.xs[t].(phase := Reaping(status, true))])
    case Unlist(t, timerOk) =>
      if t !in s.flying then s
      else RemoveFromList(s, t, Completing(s.xs[t].phase.status, s.xs[t].phase.cancelled), timerOk)
    case Complete(t) =>
      var x := s.xs[t];
      s.(xs := s.xs[t := x.(phase := Idle, flags := x.flags.(inFlight := false))],
         reports := s.reports + [Report(t, x.phase.status, x.phase.cancelled, x)])
    case Drop(t) =>
      if t !in s.flying then s
      else Delist(s, IndexOf(s.flying, t), s.xs[t].(phase := Dropped)).(closedInFlight := true)
  }
}
