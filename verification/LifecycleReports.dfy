/** What the user is told: for every run, the reports are read off its actions. */
module LifecycleReports {
  import opened IntrusiveList
  import opened Deadlines
  import opened TransferState
  import opened Lifecycle
  import opened LifecycleProofs

  /** The event handler learns how `t` ended. */
  predicate IsReap(a: Action, t: Id) {
    (a.Reap? || a.ReapCancelled?) && a.t == t
  }

  /** The last such action of a run. */
  ghost function LastReap(run: seq<Action>, t: Id): Option<Action> {
    if run == [] then None
    else if IsReap(run[|run| - 1], t) then Some(run[|run| - 1])
    else LastReap(run[..|run| - 1], t)
  }

  /** The completions of a run, each with the last reaping of its transfer before it. */
  ghost function Told(run: seq<Action>): seq<(Id, Option<Action>)> {
    if run == [] then [] else
    var front, a := run[..|run| - 1], run[|run| - 1];
    Told(front) + if a.Complete? then [(a.t, LastReap(front, a.t))] else []
  }

  /** `reap` ended with this status, or with an accepted cancellation, whose status others decide. */
  predicate EndedAs(reap: Option<Action>, status: Status, cancelled: bool) {
    && reap.Some?
    && if cancelled then reap.value.ReapCancelled? else reap.value.Reap? && reap.value.status == status
  }

  ghost predicate Answers(reports: seq<Report>, told: seq<(Id, Option<Action>)>) {
    && |reports| == |told|
    && forall k :: 0 <= k < |told| ==>
       reports[k].t == told[k].0 && EndedAs(told[k].1, reports[k].status, reports[k].cancelled)
  }

  /** How often the backend accepted `t`, and how often its end was reported. */
  ghost function Accepted(run: seq<Action>, t: Id): nat {
    if run == [] then 0 else
    var a := run[|run| - 1];
    Accepted(run[..|run| - 1], t) + if a.SubmitEnd? && a.t == t && a.ok then 1 else 0
  }

  ghost function Reported(reports: seq<Report>, t: Id): nat {
    if reports == [] then 0 else
    Reported(reports[..|reports| - 1], t) + if reports[|reports| - 1].t == t then 1 else 0
  }

  /** Accepted by the backend, and not reported yet or, after a close, ever. */
  predicate Outstanding(x: Xfer) {
    x.phase.InFlight? || x.phase.Reaping? || x.phase.Completing? || x.phase.Dropped?
  }

  predicate Reaped(x: Xfer) {
    x.phase.Reaping? || x.phase.Completing?
  }

  /** A run as all its actions but the last, and the last. */
  lemma {:induction false} LastAction(s: State, run: seq<Action>)
    requires CanRun(s, run) && run != []
    ensures var front, a := run[..|run| - 1], run[|run| - 1];
      CanRun(s, front) && Known(Run(s, front)) && Enabled(Run(s, front), a) && Run(s, run) == Next(Run(s, front), a)
    decreases |run|
  {
    hide Next, Enabled, Known;
    var front := run[..|run| - 1];
    if |run| > 1 {
      LastAction(Next(s, run[0]), run[1..]);
      assert run[1..][..|run| - 2] == front[1..];
    }
  }

  /** What an action does to the phase of `t`. */
  ghost predicate PhaseMoved(s: State, s': State, a: Action, t: Id)
    requires t in s.xs
  {
    && t in s'.xs
    && var x, x' := s.xs[t], s'.xs[t];
    && Outstanding(x')
       == (if a.SubmitEnd? && a.t == t then a.ok else if a == Complete(t) then false else Outstanding(x))
    && (a.SubmitEnd? && a.t == t ==> !Outstanding(x)) && (a == Complete(t) ==> Outstanding(x))
    && (Reaped(x') && !IsReap(a, t) ==>
          Reaped(x) && x'.phase.status == x.phase.status && x'.phase.cancelled == x.phase.cancelled)
    && (Reaped(x') && a.Reap? && a.t == t ==> x'.phase.status == a.status && !x'.phase.cancelled)
    && (Reaped(x') && a.ReapCancelled? && a.t == t ==> x'.phase.cancelled)
  }

  lemma {:induction false} RemovalMoves(s: State, t: Id, phase: Phase, timerOk: bool)
    requires Known(s) && t in s.xs && t in s.flying
    ensures RemoveFromList(s, t, phase, timerOk).xs == s.xs[t := s.xs[t].(phase := phase)]
    ensures RemoveFromList(s, t, phase, timerOk).reports == s.reports
  {
    hide Known, Items, Queue, LeastPending, IsSet;
  }

  lemma {:induction false} SubmitMoves(s: State, t: Id, due: Timespec, timerOk: bool)
    requires Known(s) && t in s.xs
    ensures Submit(s, t, due, timerOk).xs.Keys == s.xs.Keys && Submit(s, t, due, timerOk).reports == s.reports
    ensures var xs := Submit(s, t, due, timerOk).xs;
      xs == s.xs[t := xs[t]] && (xs[t].phase == s.xs[t].phase || xs[t].phase == Submitting)
  {
    hide Known, Items, Queue, InsertionPoint, Timeouts, IsSet;
  }

  lemma {:induction false} SubmissionPhases(s: State, a: Action, t: Id)
    requires Known(s) && Enabled(s, a) && t in s.xs && (a.SubmitBegin? || a.SubmitEnd? || a.SubmitUndo?)
    requires a.SubmitUndo? ==> a.t in s.flying
    ensures PhaseMoved(s, Next(s, a), a, t)
  {
    hide Known, Submit, RemoveFromList;
    match a
    case SubmitBegin(u, due, timerOk) => SubmitMoves(s, u, due, timerOk);
    case SubmitUndo(u, timerOk) => RemovalMoves(s, u, Idle, timerOk);
    case _ =>
  }

  lemma {:induction false} ScanPhases(s: State, a: Action, t: Id)
    requires Known(s) && Enabled(s, a) && t in s.xs
    requires a.UserCancel? || a.ScanChoose? || a.ScanCancel? || a.ScanMark?
    ensures PhaseMoved(s, Next(s, a), a, t)
  {
    hide After, IsSet, Cancel, Skip;
  }

  lemma {:induction false} LookingPhases(s: State, a: Action, t: Id)
    requires Known(s) && Enabled(s, a) && t in s.xs && (a.Tick? || a.ScanBegin? || a.ScanPass? || a.ScanEnd?)
    ensures PhaseMoved(s, Next(s, a), a, t)
  {
    hide After, IsSet, Cancel, Skip, Known, Items, Queue, LeastPending;
    assert Next(s, a).xs == s.xs;
  }

  lemma {:induction false} EndPhases(s: State, a: Action, t: Id)
    requires Known(s) && Enabled(s, a) && t in s.xs
    requires a.Reap? || a.ReapCancelled? || a.Unlist? || a.Complete? || a.Drop?
    requires a.Unlist? || a.Drop? ==> a.t in s.flying
    ensures PhaseMoved(s, Next(s, a), a, t)
  {
    hide Known, RemoveFromList, IndexOf;
    if a.Unlist? {
      RemovalMoves(s, a.t, Completing(s.xs[a.t].phase.status, s.xs[a.t].phase.cancelled), a.timerOk);
    }
  }

  lemma {:induction false} PhaseMoves(s: State, a: Action, t: Id)
    requires Known(s) && Enabled(s, a) && t in s.xs
    requires a.SubmitUndo? || a.Unlist? || a.Drop? ==> a.t in s.flying
    ensures PhaseMoved(s, Next(s, a), a, t)
  {
    hide *;
    if a.SubmitBegin? || a.SubmitEnd? || a.SubmitUndo? {
      SubmissionPhases(s, a, t);
    } else if a.UserCancel? || a.ScanChoose? || a.ScanCancel? || a.ScanMark? {
      ScanPhases(s, a, t);
    } else if a.Tick? || a.ScanBegin? || a.ScanPass? || a.ScanEnd? {
      LookingPhases(s, a, t);
    } else {
      EndPhases(s, a, t);
    }
  }

  lemma {:induction false} ReportsMove(s: State, a: Action)
    requires Known(s) && Enabled(s, a)
    requires a.SubmitUndo? || a.Unlist? || a.Drop? ==> a.t in s.flying
    ensures Next(s, a).xs.Keys == s.xs.Keys
    ensures if a.Complete? then
        && a.t in s.xs && s.xs[a.t].phase.Completing?
        && Next(s, a).reports == s.reports + [Report(a.t, s.xs[a.t].phase.status, s.xs[a.t].phase.cancelled, s.xs[a.t])]
      else Next(s, a).reports == s.reports
  {
    hide Submit, RemoveFromList, After, IsSet, Cancel, Skip, Items, Queue, LeastPending, IndexOf;
    match a
    case SubmitBegin(u, due, timerOk) => SubmitMoves(s, u, due, timerOk);
    case SubmitUndo(u, timerOk) => RemovalMoves(s, u, Idle, timerOk);
    case Unlist(u, timerOk) => RemovalMoves(s, u, Completing(s.xs[u].phase.status, s.xs[u].phase.cancelled), timerOk);
    case _ =>
  }

  ghost predicate ToldSoFar(s: State, run: seq<Action>) {
    && Answers(s.reports, Told(run))
    && (forall t :: t in s.xs && Reaped(s.xs[t]) ==>
          EndedAs(LastReap(run, t), s.xs[t].phase.status, s.xs[t].phase.cancelled))
    && forall t :: t in s.xs ==> Accepted(run, t) == Reported(s.reports, t) + if Outstanding(s.xs[t]) then 1 else 0
  }

  lemma {:induction false} OneMoreReport(reports: seq<Report>, r: Report, t: Id)
    ensures Reported(reports + [r], t) == Reported(reports, t) + if r.t == t then 1 else 0
  {
    assert (reports + [r])[..|reports|] == reports;
  }

  lemma {:induction false} OneMoreAction(run: seq<Action>, a: Action, t: Id)
    ensures Accepted(run + [a], t) == Accepted(run, t) + if a.SubmitEnd? && a.t == t && a.ok then 1 else 0
    ensures LastReap(run + [a], t) == if IsReap(a, t) then Some(a) else LastReap(run, t)
    ensures Told(run + [a]) == Told(run) + if a.Complete? then [(a.t, LastReap(run, a.t))] else []
  {
    assert (run + [a])[..|run|] == run;
  }

  lemma {:induction false} OneMoreAnswer(reports: seq<Report>, told: seq<(Id, Option<Action>)>, r: Report,
        reap: Option<Action>)
    requires Answers(reports, told) && EndedAs(reap, r.status, r.cancelled)
    ensures Answers(reports + [r], told + [(r.t, reap)])
  {
    hide EndedAs;
  }

  lemma {:induction false} TransferTold(s: State, run: seq<Action>, a: Action, t: Id)
    requires Known(s) && Enabled(s, a) && ToldSoFar(s, run) && t in s.xs
    requires a.SubmitUndo? || a.Unlist? || a.Drop? ==> a.t in s.flying
    ensures t in Next(s, a).xs
    ensures var s' := Next(s, a);
      && (Reaped(s'.xs[t]) ==> EndedAs(LastReap(run + [a], t), s'.xs[t].phase.status, s'.xs[t].phase.cancelled))
      && Accepted(run + [a], t) == Reported(s'.reports, t) + if Outstanding(s'.xs[t]) then 1 else 0
  {
    hide Enabled, Next, Known, Answers;
    PhaseMoves(s, a, t);
    ReportsMove(s, a);
    OneMoreAction(run, a, t);
    if a.Complete? {
      OneMoreReport(s.reports, Report(a.t, s.xs[a.t].phase.status, s.xs[a.t].phase.cancelled, s.xs[a.t]), t);
    }
  }

  lemma {:induction false} OnTheList(s: State, a: Action)
    requires Inv(s) && Enabled(s, a)
    ensures a.SubmitUndo? || a.Unlist? || a.Drop? ==> a.t in s.flying
  {
  }

  lemma {:induction false} NextTold(s: State, run: seq<Action>, a: Action)
    requires Inv(s) && Enabled(s, a) && ToldSoFar(s, run)
    ensures ToldSoFar(Next(s, a), run + [a])
  {
    OnTheList(s, a);
    hide Inv, Enabled, Next, Outstanding, EndedAs, LastReap;
    ReportsMove(s, a);
    var s' := Next(s, a);
    if s.xs != map[] {
      OneMoreAction(run, a, if a.Complete? then a.t else 0);
    }
    forall t | t in s'.xs
      ensures Reaped(s'.xs[t]) ==> EndedAs(LastReap(run + [a], t), s'.xs[t].phase.status, s'.xs[t].phase.cancelled)
      ensures Accepted(run + [a], t) == Reported(s'.reports, t) + if Outstanding(s'.xs[t]) then 1 else 0
    {
      TransferTold(s, run, a, t);
    }
    OneMoreAction(run, a, 0);
    if a.Complete? {
      OneMoreAnswer(s.reports, Told(run), Report(a.t, s.xs[a.t].phase.status, s.xs[a.t].phase.cancelled, s.xs[a.t]),
        LastReap(run, a.t));
    } else {
      assert Told(run) + [] == Told(run);
    }
  }

  lemma {:induction false} InitialInv(s: State)
    requires Initial(s)
    ensures Inv(s)
  {
  }

  lemma {:induction false} RunTold(s: State, run: seq<Action>)
    requires Initial(s) && CanRun(s, run)
    ensures ToldSoFar(Run(s, run), run)
    decreases |run|
  {
    if run != [] {
      hide *;
      var front, a := run[..|run| - 1], run[|run| - 1];
      LastAction(s, run);
      RunTold(s, front);
      InitialInv(s);
      RunInv(s, front);
      NextTold(Run(s, front), front, a);
      assert front + [a] == run;
    }
  }

  /** In every run the user is told of each completion once, in order: with the status with which the event handler last
      reaped the transfer, or that it was cancelled. Every submission that the backend accepts is reported once,
      unless it is still outstanding or its handle was closed. */
  lemma {:induction false} ReportsAreTold(s: State, run: seq<Action>)
    requires Initial(s) && CanRun(s, run)
    ensures var s' := Run(s, run);
      && Answers(s'.reports, Told(run))
      && forall t :: t in s'.xs ==>
         Accepted(run, t) == Reported(s'.reports, t) + if Outstanding(s'.xs[t]) then 1 else 0
  {
    RunTold(s, run);
  }
}
