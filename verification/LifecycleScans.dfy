/** What a whole timeout scan does, whatever other threads do between its actions. */
module LifecycleScans {
  import opened IntrusiveList
  import opened Deadlines
  import opened TransferState
  import opened Lifecycle
  import opened LifecycleProofs

  /** The three actions of a scan on one transfer are handle_timeout. */
  lemma {:induction false} ScanTimesOut(s: State, answer: int)
    requires Known(s) && Enabled(s, ScanChoose) && !s.xs[s.flying[s.lock.pos]].phase.Submitting?
    ensures var t, s1 := s.flying[s.lock.pos], Next(s, ScanChoose);
      && Known(s1) && Enabled(s1, ScanCancel(answer))
      && var s2 := Next(s1, ScanCancel(answer));
      && Known(s2) && Enabled(s2, ScanMark)
      && var s3 := Next(s2, ScanMark);
      && t in s3.xs && TimesOut(s.xs[t].flags, s3.xs[t].flags)
      && s3.flying == s.flying && s3.lock.Scan? && s3.lock.pos == s.lock.pos + 1
  {
    HandleTimeoutTimesOut(s.xs[s.flying[s.lock.pos]].flags, answer);
  }

  /** Whatever a scan has passed is handled by now, and so is the transfer it is busy with. */
  ghost predicate ScanPassed(s: State)
    requires Known(s)
  {
    s.lock.Scan? ==>
      && s.lock.pos <= |s.flying|
      && (forall i :: 0 <= i < s.lock.pos ==> Skip(s.xs[s.flying[i]]))
      && (s.lock.chosen || s.lock.mark.Some? ==> s.lock.pos < |s.flying| && Skip(s.xs[s.flying[s.lock.pos]]))
  }

  /** Nothing is waited for again while it is listed. */
  lemma {:induction false} StaysSkipped(s: State, a: Action, u: Id)
    requires Known(s) && Enabled(s, a) && s.lock.Scan? && u in s.xs && Skip(s.xs[u])
    ensures u in Next(s, a).xs && Skip(Next(s, a).xs[u])
  {
    hide After, IsSet, Known, Items, Queue, LeastPending, Submit, RemoveFromList;
  }

  /** While a scan holds the lock of the list, the list stays as it is. */
  lemma {:induction false} ListStays(s: State, a: Action)
    requires Known(s) && Enabled(s, a) && s.lock.Scan?
    ensures Next(s, a).flying == s.flying
  {
    hide After, IsSet, Known, Items, Queue, LeastPending, Submit, RemoveFromList, CancelBy, Skip;
  }

  /** How the lock changes. */
  lemma {:induction false} LockMoves(s: State, a: Action)
    requires Known(s) && Enabled(s, a) && Next(s, a).lock.Scan?
    ensures var lock, lock' := s.lock, Next(s, a).lock;
      if a.ScanBegin? then lock' == Scan(0, s.now, a.trigger, None, false) else
      && lock.Scan? && lock'.at == lock.at
      && if a.ScanPass? then lock' == lock.(pos := lock.pos + 1)
         else if a.ScanChoose? then lock' == lock.(chosen := true)
         else if a.ScanCancel? then lock.chosen && lock'.pos == lock.pos
         else if a.ScanMark? then lock.mark.Some? && lock' == lock.(pos := lock.pos + 1, mark := None)
         else lock' == lock
  {
    hide After, IsSet, Known, Items, Queue, LeastPending, InsertionPoint, Timeouts, CancelBy, Skip, Cancel;
  }

  lemma {:induction false} MovesOn(s: State, a: Action)
    requires Known(s) && Enabled(s, a)
    ensures a.ScanPass? || a.ScanChoose? || a.ScanMark? || a.ScanCancel? ==> s.lock.Scan? && s.lock.pos < |s.flying|
    ensures a.ScanPass? ==> Skip(s.xs[s.flying[s.lock.pos]]) && !s.lock.chosen && s.lock.mark == None
    ensures a.ScanChoose? ==> s.lock.mark == None && Next(s, a).xs[s.flying[s.lock.pos]].flags.handled
  {
  }

  lemma {:induction false} InvParts(s: State)
    requires Inv(s)
    ensures Known(s) && ScanInPlace(s)
  {
  }

  lemma {:induction false} SkipsHandled(x: Xfer)
    requires x.flags.handled
    ensures Skip(x)
  {
  }

  lemma {:induction false} NextScan(s: State, a: Action)
    requires Inv(s) && Enabled(s, a) && ScanPassed(s)
    ensures Known(Next(s, a)) && ScanPassed(Next(s, a))
  {
    hide Enabled, Next, Inv, Skip;
    InvParts(s);
    NextInv(s, a);
    var s' := Next(s, a);
    InvParts(s');
    if s'.lock.Scan? {
      LockMoves(s, a);
      MovesOn(s, a);
      if a.ScanChoose? {
        ListStays(s, a);
        assert s'.flying[s.lock.pos] in s'.xs;
        SkipsHandled(s'.xs[s.flying[s.lock.pos]]);
      }
      if s.lock.Scan? {
        ListStays(s, a);
        forall i | 0 <= i < |s.flying| && Skip(s.xs[s.flying[i]])
          ensures Skip(s'.xs[s'.flying[i]])
        {
          StaysSkipped(s, a, s.flying[i]);
        }
      }
    }
  }

  lemma {:induction false} RunScan(s: State, run: seq<Action>)
    requires Inv(s) && ScanPassed(s) && CanRun(s, run)
    ensures Inv(Run(s, run)) && ScanPassed(Run(s, run))
    decreases |run|
  {
    hide Inv, Next, Enabled, ScanPassed;
    if run != [] {
      NextInv(s, run[0]);
      NextScan(s, run[0]);
      RunScan(Next(s, run[0]), run[1..]);
    }
  }

  lemma {:induction false} LaterStill(a: Timespec, b: Timespec, at: Timespec)
    requires NotAfter(a, b) && (!IsSet(a) || After(a, at))
    ensures !IsSet(b) || After(b, at)
  {
  }

  lemma {:induction false} InOrder(q: seq<Xfer>, i: nat, j: nat)
    requires Ordered(q) && i <= j < |q|
    ensures NotAfter(q[i].due, q[j].due)
  {
    if i < j {
      assert Before(q[i], q[j]);
    }
  }

  lemma {:induction false} LeftAlone(s: State, timerOk: bool)
    requires Known(s) && Enabled(s, ScanEnd(timerOk)) && ScanPassed(s)
    ensures s.lock.Scan? && s.lock.pos <= |s.flying| && |Queue(s)| == |s.flying|
    ensures forall i :: 0 <= i < s.lock.pos ==> Skip(Queue(s)[i])
    ensures s.lock.pos < |s.flying| ==> !IsSet(Queue(s)[s.lock.pos].due) || After(Queue(s)[s.lock.pos].due, s.lock.at)
  {
  }

  /** After any run, a scan that may end has left no transfer behind whose deadline had passed when it began, unless
      somebody sees to it: it stops early only because the rest of the list is due later or never. */
  lemma {:induction false} ScanLeavesNoneLate(s: State, run: seq<Action>, timerOk: bool)
    requires Initial(s) && CanRun(s, run) && Known(Run(s, run)) && Enabled(Run(s, run), ScanEnd(timerOk))
    ensures var s' := Run(s, run);
      forall x :: x in Queue(s') && IsSet(x.due) && !After(x.due, s'.lock.at) ==> Skip(x)
  {
    RunScan(s, run);
    var s' := Run(s, run);
    var q, pos := Queue(s'), s'.lock.pos;
    assert Ordered(q);
    hide *;
    LeftAlone(s', timerOk);
    forall j | 0 <= j < |q| && IsSet(q[j].due) && !After(q[j].due, s'.lock.at)
      ensures Skip(q[j])
    {
      if pos <= j {
        InOrder(q, pos, j);
        LaterStill(q[pos].due, q[j].due, s'.lock.at);
      }
    }
  }

  function Ways(ways: seq<bool>): nat {
    if ways == [] then 0 else (if ways[0] then 1 else 0) + Ways(ways[1..])
  }

  lemma {:induction false} OneOfSix(a: bool, b: bool, c: bool, d: bool, e: bool, f: bool)
    requires a || b || c || d || e || f
    requires a ==> !(b || c || d || e || f)
    requires b ==> !(c || d || e || f)
    requires c ==> !(d || e || f)
    requires d ==> !(e || f)
    requires e ==> !f
    ensures Ways([a, b, c, d, e, f]) == 1
  {
    assert Ways([f]) == if f then 1 else 0;
    assert Ways([e, f]) == (if e then 1 else 0) + Ways([f]) by { assert [e, f][1..] == [f]; }
    assert Ways([d, e, f]) == (if d then 1 else 0) + Ways([e, f]) by { assert [d, e, f][1..] == [e, f]; }
    assert Ways([c, d, e, f]) == (if c then 1 else 0) + Ways([d, e, f]) by { assert [c, d, e, f][1..] == [d, e, f]; }
    assert [b, c, d, e, f][1..] == [c, d, e, f] && [a, b, c, d, e, f][1..] == [b, c, d, e, f];
  }

  lemma {:induction false} ScanWays(s: State, answer: int, timerOk: bool)
    requires Known(s) && ScanInPlace(s) && s.lock.Scan?
    ensures s.lock.chosen ==> s.lock.pos < |s.flying| && s.flying[s.lock.pos] in s.xs
    ensures var a, b, c := Enabled(s, ScanPass), Enabled(s, ScanChoose), Enabled(s, ScanCancel(answer));
      var d, e, f := Enabled(s, ScanMark), Enabled(s, ScanEnd(timerOk)),
                     s.lock.chosen && s.xs[s.flying[s.lock.pos]].phase.Submitting?;
      && (a || b || c || d || e || f) && (a ==> !(b || c || d || e || f)) && (b ==> !(c || d || e || f))
      && (c ==> !(d || e || f)) && (d ==> !(e || f)) && (e ==> !f)
  {
    hide After, IsSet, Skip;
  }

  /** A scan never hangs and never has a choice: after any run it can go on in exactly one way, or waits for the lock
      of a transfer that is being submitted. */
  lemma {:induction false} ScanGoesOn(s: State, run: seq<Action>, answer: int, timerOk: bool)
    requires Initial(s) && CanRun(s, run) && Run(s, run).lock.Scan?
    ensures var s' := Run(s, run);
      && Known(s') && (s'.lock.chosen ==> s'.lock.pos < |s'.flying|)
      && Ways([Enabled(s', ScanPass), Enabled(s', ScanChoose), Enabled(s', ScanCancel(answer)), Enabled(s', ScanMark),
               Enabled(s', ScanEnd(timerOk)),
               s'.lock.chosen && s'.xs[s'.flying[s'.lock.pos]].phase.Submitting?]) == 1
  {
    RunInv(s, run);
    var s' := Run(s, run);
    InvParts(s');
    hide *;
    ScanWays(s', answer, timerOk);
    OneOfSix(Enabled(s', ScanPass), Enabled(s', ScanChoose), Enabled(s', ScanCancel(answer)), Enabled(s', ScanMark),
             Enabled(s', ScanEnd(timerOk)), s'.lock.chosen && s'.xs[s'.flying[s'.lock.pos]].phase.Submitting?);
  }
}
