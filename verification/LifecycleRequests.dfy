/** Who a cancelled transfer was cancelled by: for every run, read off its requests. */
module LifecycleRequests {
  import opened IntrusiveList
  import opened Deadlines
  import opened TransferState
  import opened Lifecycle
  import opened LifecycleProofs
  import opened LifecycleReports

  /** A cancel request, by a timeout scan or the user, and what the backend would answer. */
  datatype Request = Request(byScan: bool, answer: int)

  ghost function RequestOf(s: State, a: Action, t: Id): Option<Request>
    requires Known(s) && Enabled(s, a)
  {
    if a.UserCancel? && a.t == t then Some(Request(false, a.answer))
    else if a.ScanCancel? && s.flying[s.lock.pos] == t then Some(Request(true, a.answer))
    else None
  }

  /** The first request for `t` in a run since its submission was last done. */
  ghost function FirstRequest(s: State, run: seq<Action>, t: Id): Option<Request>
    requires CanRun(s, run)
  {
    if run == [] then None else
    LastAction(s, run);
    var front, a := run[..|run| - 1], run[|run| - 1];
    if a.SubmitEnd? && a.t == t then None
    else if FirstRequest(s, front, t).Some? then FirstRequest(s, front, t)
    else RequestOf(Run(s, front), a, t)
  }

  /** The flags of a transfer in flight record that request. */
  predicate Records(x: Xfer, first: Option<Request>) {
    && (x.phase.Submitting? ==> !x.flags.cancelling && x.flags.answers == [])
    && (x.flags.inFlight ==>
          && (x.flags.cancelling <==> first.Some?)
          && (first.Some? ==>
                && x.flags.answers == [first.value.answer]
                && (x.accepted.Some? <==> first.value.answer == SUCCESS)
                && (x.accepted.Some? ==> (x.accepted.value.Timeout? <==> first.value.byScan))))
  }

  predicate SameRequests(x: Xfer, x': Xfer) {
    x'.flags.cancelling == x.flags.cancelling && x'.flags.answers == x.flags.answers && x'.accepted == x.accepted
  }

  /** What an action does to the record. */
  ghost predicate RecordMoved(s: State, s': State, a: Action, t: Id)
    requires Known(s) && Enabled(s, a) && t in s.xs
  {
    && t in s'.xs
    && var x, x', r := s.xs[t], s'.xs[t], RequestOf(s, a, t);
    && (x'.phase.Submitting? ==> x.phase.Submitting? || (!x'.flags.cancelling && x'.flags.answers == []))
    && if a.SubmitEnd? && a.t == t then SameRequests(x, x') && x.phase.Submitting?
       else if r.Some? && x.flags.inFlight && !x.flags.cancelling then
         && x'.flags.inFlight && x'.flags.cancelling && x'.flags.answers == x.flags.answers + [r.value.answer]
         && (if r.value.answer != SUCCESS then x'.accepted == x.accepted
             else x'.accepted.Some? && (x'.accepted.value.Timeout? <==> r.value.byScan))
       else (SameRequests(x, x') && (x'.flags.inFlight ==> x.flags.inFlight)) || x'.flags == CLEAR
  }

  lemma {:induction false} RemovalKeeps(s: State, t: Id, phase: Phase, timerOk: bool, u: Id)
    requires Known(s) && t in s.xs && t in s.flying && u in s.xs
    ensures var xs := RemoveFromList(s, t, phase, timerOk).xs;
      u in xs && xs[u].flags == s.xs[u].flags && xs[u].accepted == s.xs[u].accepted
      && xs[u].phase == if u == t then phase else s.xs[u].phase
  {
    RemovalMoves(s, t, phase, timerOk);
  }

  lemma {:induction false} SubmitRecords(s: State, t: Id, due: Timespec, timerOk: bool, u: Id)
    requires Known(s) && t in s.xs && u in s.xs
    ensures var xs := Submit(s, t, due, timerOk).xs;
      u in xs && if u == t then xs[u].flags == CLEAR else xs[u] == s.xs[u]
  {
    hide Known, Items, Queue, InsertionPoint, Timeouts, IsSet;
  }

  lemma {:induction false} SubmissionRecords(s: State, a: Action, t: Id)
    requires Known(s) && Enabled(s, a) && t in s.xs && (a.SubmitBegin? || a.SubmitEnd? || a.SubmitUndo?)
    requires a.SubmitUndo? ==> a.t in s.flying
    ensures RecordMoved(s, Next(s, a), a, t)
  {
    hide Known, Submit, RemoveFromList;
    match a
    case SubmitBegin(u, due, timerOk) => SubmitRecords(s, u, due, timerOk, t);
    case SubmitUndo(u, timerOk) => RemovalKeeps(s, u, Idle, timerOk, t);
    case _ =>
  }

  lemma {:induction false} CancelRecords(x: Xfer, who: Canceller, answer: int)
    ensures var x' := CancelBy(x, who, answer);
      && x'.phase == x.phase && x'.flags.inFlight == x.flags.inFlight
      && if x.flags.inFlight && !x.flags.cancelling then
           && x'.flags.cancelling && x'.flags.answers == x.flags.answers + [answer]
           && x'.accepted == if answer == SUCCESS then Some(who) else x.accepted
         else SameRequests(x, x')
  {
  }

  lemma {:induction false} ScanRecords(s: State, a: Action, t: Id)
    requires Known(s) && Enabled(s, a) && t in s.xs
    requires a.UserCancel? || a.ScanChoose? || a.ScanCancel? || a.ScanMark?
    ensures RecordMoved(s, Next(s, a), a, t)
  {
    hide After, IsSet, Cancel, Skip, CancelBy;
    match a
    case UserCancel(u, answer) => CancelRecords(s.xs[u], User, answer);
    case ScanCancel(answer) => CancelRecords(s.xs[s.flying[s.lock.pos]], Timeout(s.lock.at), answer);
    case _ =>
  }

  lemma {:induction false} LookingRecords(s: State, a: Action, t: Id)
    requires Known(s) && Enabled(s, a) && t in s.xs && (a.Tick? || a.ScanBegin? || a.ScanPass? || a.ScanEnd?)
    ensures RecordMoved(s, Next(s, a), a, t)
  {
    hide After, IsSet, Cancel, Skip, Known, Items, Queue, LeastPending;
    assert Next(s, a).xs == s.xs;
  }

  lemma {:induction false} EndRecords(s: State, a: Action, t: Id)
    requires Known(s) && Enabled(s, a) && t in s.xs
    requires a.Reap? || a.ReapCancelled? || a.Unlist? || a.Complete? || a.Drop?
    requires a.Unlist? || a.Drop? ==> a.t in s.flying
    ensures RecordMoved(s, Next(s, a), a, t)
  {
    hide Known, RemoveFromList, IndexOf;
    if a.Unlist? {
      RemovalKeeps(s, a.t, Completing(s.xs[a.t].phase.status, s.xs[a.t].phase.cancelled), a.timerOk, t);
    }
  }

  lemma {:induction false} RecordMoves(s: State, a: Action, t: Id)
    requires Known(s) && Enabled(s, a) && t in s.xs
    requires a.SubmitUndo? || a.Unlist? || a.Drop? ==> a.t in s.flying
    ensures RecordMoved(s, Next(s, a), a, t)
  {
    hide *;
    if a.SubmitBegin? || a.SubmitEnd? || a.SubmitUndo? {
      SubmissionRecords(s, a, t);
    } else if a.UserCancel? || a.ScanChoose? || a.ScanCancel? || a.ScanMark? {
      ScanRecords(s, a, t);
    } else if a.Tick? || a.ScanBegin? || a.ScanPass? || a.ScanEnd? {
      LookingRecords(s, a, t);
    } else {
      EndRecords(s, a, t);
    }
  }

  /** What the invariant says of one transfer. */
  lemma {:induction false} FlagsOf(s: State, t: Id)
    requires Inv(s) && t in s.xs
    ensures Known(s) && FlagsAgree(s.xs[t], Marking(s, t))
  {
  }

  lemma {:induction false} NextRecords(s: State, a: Action, t: Id, first: Option<Request>, first': Option<Request>)
    requires Known(s) && Enabled(s, a) && t in s.xs && Records(s.xs[t], first) && RecordMoved(s, Next(s, a), a, t)
    requires FlagsAgree(s.xs[t], Marking(s, t))
    requires first' == if a.SubmitEnd? && a.t == t then None else if first.Some? then first else RequestOf(s, a, t)
    ensures Records(Next(s, a).xs[t], first')
  {
    hide Known, Next, Enabled, Marking, RequestOf, StatusTellsWho;
  }

  lemma {:induction false} StaysKnown(s: State, a: Action, t: Id)
    requires Known(s) && Enabled(s, a) && t in s.xs && RecordMoved(s, Next(s, a), a, t)
    ensures t in Next(s, a).xs
  {
  }

  lemma {:induction false} AtFirst(s: State, t: Id)
    requires Initial(s) && t in s.xs
    ensures CanRun(s, []) && Run(s, []) == s && Records(s.xs[t], FirstRequest(s, [], t))
  {
  }

  lemma {:induction false} FirstOn(s: State, run: seq<Action>, t: Id)
    requires CanRun(s, run) && run != []
    ensures var front, a := run[..|run| - 1], run[|run| - 1];
      && CanRun(s, front) && Known(Run(s, front)) && Enabled(Run(s, front), a)
      && FirstRequest(s, run, t) ==
         if a.SubmitEnd? && a.t == t then None
         else if FirstRequest(s, front, t).Some? then FirstRequest(s, front, t)
         else RequestOf(Run(s, front), a, t)
  {
    LastAction(s, run);
  }

  lemma {:induction false} RunRecords(s: State, run: seq<Action>, t: Id)
    requires Initial(s) && CanRun(s, run) && t in s.xs
    ensures t in Run(s, run).xs && Records(Run(s, run).xs[t], FirstRequest(s, run, t))
    decreases |run|
  {
    if run == [] {
      AtFirst(s, t);
    } else {
      var front, a := run[..|run| - 1], run[|run| - 1];
      LastAction(s, run);
      FirstOn(s, run, t);
      hide *;
      RunRecords(s, front, t);
      InitialInv(s);
      RunInv(s, front);
      FlagsOf(Run(s, front), t);
      OnTheList(Run(s, front), a);
      RecordMoves(Run(s, front), a, t);
      StaysKnown(Run(s, front), a, t);
      NextRecords(Run(s, front), a, t, FirstRequest(s, front, t), FirstRequest(s, run, t));
    }
  }

  /** In every run, a completion tells the user that the transfer was cancelled only if the first request since its
      submission was accepted, and then by the status who made it: a timeout scan, or the user. */
  lemma {:induction false} FirstRequestDecides(s: State, run: seq<Action>, t: Id)
    requires Initial(s) && CanRun(s, run) && Known(Run(s, run)) && Enabled(Run(s, run), Complete(t)) && t in s.xs
    ensures var s' := Run(s, run);
      && t in s'.xs && s'.xs[t].phase.Completing?
      && var Completing(status, cancelled) := s'.xs[t].phase;
      && Next(s', Complete(t)).reports == s'.reports + [Report(t, status, cancelled, s'.xs[t])]
      && (cancelled ==>
            && (status == TIMED_OUT || status == CANCELLED)
            && FirstRequest(s, run, t) == Some(Request(status == TIMED_OUT, SUCCESS)))
  {
    InitialInv(s);
    RunInv(s, run);
    RunRecords(s, run, t);
    hide FirstRequest, CanRun, Run;
    FlagsOf(Run(s, run), t);
  }
}
