/** What holds of the transfers in every state of every run of the Lifecycle machine. */
module LifecycleProofs {
  import opened IntrusiveList
  import opened Deadlines
  import opened TransferState
  import opened Lifecycle

  /** The order of the flying list: by deadline, ties in the order of submission. */
  ghost predicate Before(x: Xfer, y: Xfer) {
    NotAfter(x.due, y.due) && (NotAfter(y.due, x.due) ==> x.seqno < y.seqno)
  }

  ghost predicate Ordered(q: seq<Xfer>) {
    forall i, j :: 0 <= i < j < |q| ==> Before(q[i], q[j])
  }

  ghost predicate ListedExactly(s: State) {
    && (forall t :: t in s.xs ==> (Listed(s.xs[t]) <==> t in s.flying))
    && (forall t :: t in s.xs && Listed(s.xs[t]) ==> Normal(s.xs[t].due) && s.xs[t].seqno < s.submissions)
  }

  /** Is `t` between its accepted cancellation by a scan and the TIMED_OUT flag? */
  ghost predicate Marking(s: State, t: Id) {
    s.lock.Scan? && s.lock.mark == Some(SUCCESS) && s.lock.pos < |s.flying| && s.flying[s.lock.pos] == t
  }

  /** A cancelled transfer is reported as timed out exactly if the accepted cancellation was a timeout
      scan's, made when the deadline had passed, and as cancelled otherwise. */
  ghost predicate StatusTellsWho(x: Xfer, status: Status) {
    && x.flags.answers == [SUCCESS] && x.accepted.Some?
    && status == (if x.accepted.value.Timeout? then TIMED_OUT else CANCELLED)
    && (x.accepted.value.Timeout? ==> IsSet(x.due) && !After(x.due, x.accepted.value.at))
  }

  /** The flags of a transfer tell who had its cancellation accepted. */
  ghost predicate FlagsAgree(x: Xfer, marking: bool) {
    && (x.phase.InFlight? || x.phase.Reaping? || x.phase.Completing? ==> x.flags.inFlight)
    && (x.phase.Idle? || x.phase.Submitting? || x.phase.Failed? ==> !x.flags.inFlight)
    && |x.flags.answers| <= 1
    && (x.flags.cancelling <==> |x.flags.answers| == 1)
    && (x.accepted.Some? <==> x.flags.answers == [SUCCESS])
    && (x.flags.timedOut <==> x.accepted.Some? && x.accepted.value.Timeout? && !marking)
    && (marking ==> x.accepted.Some? && x.accepted.value.Timeout? && Listed(x))
    && (x.accepted.Some? && x.accepted.value.Timeout? ==> IsSet(x.due) && !After(x.due, x.accepted.value.at))
    && (x.phase.Reaping? && x.phase.cancelled ==> StatusTellsWho(x, x.phase.status))
    && (x.phase.Completing? && x.phase.cancelled ==> StatusTellsWho(x, x.phase.status))
  }

  ghost predicate AllFlagsAgree(s: State) {
    forall t :: t in s.xs ==> FlagsAgree(s.xs[t], Marking(s, t))
  }

  /** While a scan has yet to cancel or to mark, it is still at the transfer it chose, which was late. */
  ghost predicate ScanInPlace(s: State)
    requires Known(s)
  {
    && (s.lock.Scan? && (s.lock.mark.Some? || s.lock.chosen) ==> s.lock.pos < |s.flying|)
    && (s.lock.Scan? && s.lock.chosen ==>
        var x := s.xs[s.flying[s.lock.pos]];
        s.lock.mark == None && x.flags.handled && IsSet(x.due) && !After(x.due, s.lock.at))
  }

  ghost predicate Waiting(x: Xfer) {
    IsSet(x.due) && !Skip(x)
  }

  /** If the first transfer still waits for its deadline, that is what the timer is set to. */
  ghost predicate TimerMatchesHead(s: State)
    requires Known(s)
  {
    s.usingTimer && !s.timerFailed && !s.closedInFlight && s.flying != [] && Waiting(Queue(s)[0])
    ==> s.timer == Some(Queue(s)[0].due)
  }

  ghost predicate ReportsTellWho(s: State) {
    forall r :: r in s.reports && r.cancelled ==> StatusTellsWho(r.x, r.status)
  }

  ghost predicate Core(s: State) {
    Known(s) && Ordered(Queue(s)) && ListedExactly(s) && AllFlagsAgree(s) && ScanInPlace(s) && ReportsTellWho(s)
  }

  ghost predicate Inv(s: State) {
    Core(s) && TimerMatchesHead(s)
  }

  lemma {:induction false} DuesAreSorted(q: seq<Xfer>)
    requires Ordered(q)
    ensures Sorted(Timeouts(Items(q)))
  {
    var ds := Timeouts(Items(q));
    forall i, j | 0 <= i < j < |ds|
      ensures NotAfter(ds[i], ds[j])
    {
      assert Before(q[i], q[j]);
    }
  }

  lemma {:induction false} BeforeEither(x: Xfer, y: Xfer)
    ensures x.seqno < y.seqno && NotAfter(x.due, y.due) ==> Before(x, y)
    ensures !NotAfter(x.due, y.due) ==> Before(y, x)
  {
  }

  lemma {:induction false} AfterInsert<T>(s: seq<T>, k: nat, x: T, i: nat)
    requires k <= |s| && i <= |s|
    ensures (s[..k] + [x] + s[k..])[i] == if i < k then s[i] else if i == k then x else s[i - 1]
  {
  }

  lemma {:induction false} InsertBetween(q: seq<Xfer>, k: nat, x: Xfer)
    requires Ordered(q) && k <= |q|
    requires forall i :: 0 <= i < |q| ==> if i < k then Before(q[i], x) else Before(x, q[i])
    ensures Ordered(q[..k] + [x] + q[k..])
  {
    hide Before;
    var q' := q[..k] + [x] + q[k..];
    forall i, j | 0 <= i < j < |q'|
      ensures Before(q'[i], q'[j])
    {
      AfterInsert(q, k, x, i);
      AfterInsert(q, k, x, j);
    }
  }

  lemma {:induction false} InsertIsOrdered(q: seq<Xfer>, x: Xfer)
    requires Ordered(q) && forall i :: 0 <= i < |q| ==> q[i].seqno < x.seqno
    ensures var k := InsertionPoint(Timeouts(Items(q)), x.due); Ordered(q[..k] + [x] + q[k..])
  {
    hide InsertionPoint, Sorted, NotAfter, Before, Ordered;
    DuesAreSorted(q);
    var k := InsertionPoint(Timeouts(Items(q)), x.due);
    forall i | 0 <= i < |q|
      ensures if i < k then Before(q[i], x) else Before(x, q[i])
    {
      assert Timeouts(Items(q))[i] == q[i].due;
      BeforeEither(q[i], x);
    }
    InsertBetween(q, k, x);
  }

  lemma {:induction false} RemoveIsOrdered(q: seq<Xfer>, k: nat)
    requires Ordered(q) && k < |q|
    ensures Ordered(q[..k] + q[k + 1..])
  {
    var q' := q[..k] + q[k + 1..];
    forall i, j | 0 <= i < j < |q'|
      ensures Before(q'[i], q'[j])
    {
      var m, n := if i < k then i else i + 1, if j < k then j else j + 1;
      assert q'[i] == q[m] && q'[j] == q[n] && Before(q[m], q[n]);
    }
  }

  /** A strict order has no duplicates. */
  lemma {:induction false} NoDuplicates(s: State)
    requires Known(s) && Ordered(Queue(s))
    ensures Distinct(s.flying)
  {
    forall i, j | 0 <= i < j < |s.flying|
      ensures s.flying[i] != s.flying[j]
    {
      assert Before(Queue(s)[i], Queue(s)[j]);
    }
  }

  /** Changing one transfer's flags or phase leaves the list and the timer right, unless that makes it
      wait again for its deadline. */
  lemma {:induction false} UpdateOne(s: State, s': State, t: Id)
    requires Inv(s) && t in s.xs && t in s'.xs
    requires s' == s.(xs := s.xs[t := s'.xs[t]], lock := s'.lock, reports := s'.reports)
    requires var x, x' := s.xs[t], s'.xs[t];
      x'.due == x.due && x'.seqno == x.seqno && (Listed(x') <==> Listed(x)) && (Skip(x) ==> Skip(x'))
    ensures Known(s') && Ordered(Queue(s')) && ListedExactly(s') && TimerMatchesHead(s')
  {
    hide FlagsAgree, StatusTellsWho, NotAfter;
    var q, q' := Queue(s), Queue(s');
    forall i, j | 0 <= i < j < |q'|
      ensures Before(q'[i], q'[j])
    {
      assert Before(q[i], q[j]);
    }
  }

  lemma {:induction false} InsertMembers<T>(s: seq<T>, k: nat, t: T)
    requires k <= |s|
    ensures forall u :: u in s[..k] + [t] + s[k..] <==> u in s || u == t
  {
    assert s == s[..k] + s[k..];
  }

  lemma {:induction false} RemoveMembers<T>(s: seq<T>, k: nat)
    requires Distinct(s) && k < |s|
    ensures forall u :: u in s[..k] + s[k + 1..] <==> u in s && u != s[k]
  {
    assert s == s[..k] + [s[k]] + s[k + 1..];
  }

  lemma {:induction false} EnlistQueue(s: State, t: Id, x: Xfer, k: nat)
    requires Known(s) && t !in s.flying && k <= |s.flying|
    ensures var s' := Enlist(s, t, x, k); Known(s') && Queue(s') == Queue(s)[..k] + [x] + Queue(s)[k..]
  {
    var s' := Enlist(s, t, x, k);
    forall i | 0 <= i < |s'.flying|
      ensures s'.flying[i] in s'.xs
      ensures s'.xs[s'.flying[i]] == (Queue(s)[..k] + [x] + Queue(s)[k..])[i]
    {
      if i != k {
        var j := if i < k then i else i - 1;
        assert s'.flying[i] == s.flying[j] && s.flying[j] in s.flying;
      }
    }
  }

  lemma {:induction false} DelistQueue(s: State, k: nat, x: Xfer)
    requires Known(s) && Distinct(s.flying) && k < |s.flying|
    ensures var s' := Delist(s, k, x); Known(s') && Queue(s') == Queue(s)[..k] + Queue(s)[k + 1..]
  {
    var s' := Delist(s, k, x);
    forall i | 0 <= i < |s'.flying|
      ensures s'.flying[i] in s'.xs
      ensures s'.xs[s'.flying[i]] == (Queue(s)[..k] + Queue(s)[k + 1..])[i]
    {
      var j := if i < k then i else i + 1;
      assert s'.flying[i] == s.flying[j];
    }
  }

  lemma {:induction false} EnlistListsIt(s: State, t: Id, x: Xfer, k: nat)
    requires Known(s) && ListedExactly(s) && t !in s.flying && k <= |s.flying| && t in s.xs
    requires Listed(x) && Normal(x.due) && x.seqno < s.submissions
    ensures ListedExactly(Enlist(s, t, x, k))
  {
    InsertMembers(s.flying, k, t);
  }

  lemma {:induction false} EnlistFlags(s: State, t: Id, x: Xfer, k: nat)
    requires AllFlagsAgree(s) && s.lock.Free? && FlagsAgree(x, false) && k <= |s.flying|
    ensures AllFlagsAgree(Enlist(s, t, x, k))
  {
    hide FlagsAgree;
  }

  /** The core of the invariant is not about the timer. */
  lemma {:induction false} CoreWithoutTimer(s: State, s': State)
    requires Core(s) && s' == s.(timer := s'.timer, timerFailed := s'.timerFailed)
    ensures Core(s') && Queue(s') == Queue(s)
  {
    hide FlagsAgree, StatusTellsWho, Before;
    assert Queue(s') == Queue(s);
  }

  lemma {:induction false} EnlistCore(s: State, t: Id, x: Xfer)
    requires Core(s) && s.lock.Free? && t in s.xs && t !in s.flying
    requires x.phase.Submitting? && x.flags == CLEAR && x.accepted == None && Normal(x.due) && x.seqno == s.submissions
    ensures var k := InsertionPoint(Timeouts(Items(Queue(s))), x.due);
      var s' := Enlist(s.(submissions := s.submissions + 1), t, x, k);
      Core(s') && Queue(s') == Queue(s)[..k] + [x] + Queue(s)[k..]
  {
    hide IsInsertionPoint, InsertionPoint, Before, NotAfter, IsSet, Timeouts, Items, StatusTellsWho;
    var k := InsertionPoint(Timeouts(Items(Queue(s))), x.due);
    assert FlagsAgree(x, false);
    hide FlagsAgree;
    assert forall i :: 0 <= i < |s.flying| ==> s.flying[i] in s.flying;
    InsertIsOrdered(Queue(s), x);
    var s1 := s.(submissions := s.submissions + 1);
    assert Queue(s1) == Queue(s);
    EnlistQueue(s1, t, x, k);
    EnlistListsIt(s1, t, x, k);
    EnlistFlags(s1, t, x, k);
  }

  /** The timer is right for the new head: either the new transfer, or the one that was there. */
  lemma {:induction false} TimerAfterEnlist(s: State, s': State, x: Xfer, k: nat)
    requires Known(s) && Known(s') && TimerMatchesHead(s) && k <= |s.flying|
    requires Queue(s') == Queue(s)[..k] + [x] + Queue(s)[k..]
    requires s'.usingTimer == s.usingTimer && s'.timerFailed == s.timerFailed && s'.closedInFlight == s.closedInFlight
    requires s'.timer == if s.usingTimer && IsSet(x.due) && k == 0 then Some(x.due) else s.timer
    ensures TimerMatchesHead(s')
  {
    hide Known, Skip;
    assert Queue(s')[0] == if k == 0 then x else Queue(s)[0];
  }

  lemma {:induction false} EnlistInv(s: State, t: Id, x: Xfer)
    requires Inv(s) && s.lock.Free? && t in s.xs && t !in s.flying
    requires x.phase.Submitting? && x.flags == CLEAR && x.accepted == None && Normal(x.due) && x.seqno == s.submissions
    ensures var k := InsertionPoint(Timeouts(Items(Queue(s))), x.due);
      var s' := Enlist(s.(submissions := s.submissions + 1), t, x, k);
      Inv(s'.(timer := if s.usingTimer && IsSet(x.due) && k == 0 then Some(x.due) else s.timer))
  {
    hide InsertionPoint, Timeouts, Items, Queue, Listed, TimerMatchesHead, Ordered, ListedExactly, AllFlagsAgree;
    hide ScanInPlace, ReportsTellWho;
    var k := InsertionPoint(Timeouts(Items(Queue(s))), x.due);
    EnlistCore(s, t, x);
    var s1 := Enlist(s.(submissions := s.submissions + 1), t, x, k);
    var s' := s1.(timer := if s.usingTimer && IsSet(x.due) && k == 0 then Some(x.due) else s.timer);
    CoreWithoutTimer(s1, s');
    TimerAfterEnlist(s, s', x, k);
  }

  lemma {:induction false} SubmitIs(s: State, t: Id, due: Timespec, timerOk: bool)
    requires Known(s) && t in s.xs
    ensures var k := InsertionPoint(Timeouts(Items(Queue(s))), due);
      var x := s.xs[t].(due := due, flags := CLEAR, accepted := None);
      var y := x.(phase := Submitting, seqno := s.submissions);
      var first := s.usingTimer && IsSet(due) && k == 0;
      Submit(s, t, due, timerOk)
      == if first && !timerOk then s.(xs := s.xs[t := x], timerFailed := true)
         else Enlist(s.(submissions := s.submissions + 1), t, y, k).(timer := if first then Some(due) else s.timer)
  {
    hide InsertionPoint, Timeouts, Items, Queue, Known, IsSet;
  }

  lemma {:induction false} UpdateIdle(s: State, t: Id, x: Xfer)
    requires Inv(s) && t in s.xs && s.xs[t].phase.Idle? && x.phase.Idle? && x.flags == CLEAR && x.accepted == None
    requires s.lock.Free?
    ensures Inv(s.(xs := s.xs[t := x], timerFailed := true))
  {
    var s' := s.(xs := s.xs[t := x], timerFailed := true);
    assert forall i :: 0 <= i < |s.flying| ==> s.flying[i] in s.flying;
    assert Queue(s') == Queue(s);
  }

  lemma {:induction false} SubmitInv(s: State, t: Id, due: Timespec, timerOk: bool)
    requires Inv(s) && s.lock.Free? && t in s.xs && s.xs[t].phase.Idle? && Normal(due)
    ensures Inv(Submit(s, t, due, timerOk))
  {
    assert Known(s) && t !in s.flying;
    hide *;
    var x := s.xs[t].(due := due, flags := CLEAR, accepted := None);
    SubmitIs(s, t, due, timerOk);
    UpdateIdle(s, t, x);
    EnlistInv(s, t, x.(phase := Submitting, seqno := s.submissions));
  }

  lemma {:induction false} DelistCore(s: State, t: Id, x: Xfer)
    requires Core(s) && s.lock.Free? && t in s.flying && t in s.xs && !Listed(x) && FlagsAgree(x, false)
    ensures var k := IndexOf(s.flying, t);
      var s' := Delist(s, k, x);
      Core(s') && Queue(s') == Queue(s)[..k] + Queue(s)[k + 1..]
  {
    hide FlagsAgree, StatusTellsWho, Before, IndexOf;
    NoDuplicates(s);
    var k := IndexOf(s.flying, t);
    DelistQueue(s, k, x);
    RemoveMembers(s.flying, k);
    RemoveIsOrdered(Queue(s), k);
  }

  lemma {:induction false} NotDueAfterNever(s: State)
    requires Core(s) && |s.flying| > 1 && !IsSet(Queue(s)[0].due)
    ensures !IsSet(Queue(s)[1].due)
  {
    assert Before(Queue(s)[0], Queue(s)[1]);
  }

  /** On an ordered list the head, if it waits, is the least; and LeastPending is the true minimum. */
  lemma {:induction false} LeastOfOrdered(q: seq<Xfer>)
    requires Ordered(q)
    ensures IsLeastPending(Items(q), LeastPending(Items(q)))
    ensures q != [] && Waiting(q[0]) ==> LeastPending(Items(q)) == Some(q[0].due)
  {
    DuesAreSorted(q);
    if q != [] && Waiting(q[0]) {
      assert Pending(Items(q)[0]);
    }
  }

  /** Whenever a transfer leaves the list, the timer is right for the new head; when the leaving one was
      first in line and had a deadline, the timer is set to the least deadline still waited for. */
  lemma {:induction false} RemoveInv(s: State, t: Id, phase: Phase, timerOk: bool)
    requires Inv(s) && s.lock.Free? && t in s.xs && t in s.flying
    requires !Listed(s.xs[t].(phase := phase)) && FlagsAgree(s.xs[t].(phase := phase), false)
    ensures var s' := RemoveFromList(s, t, phase, timerOk);
      && Inv(s')
      && (s.flying[0] == t && IsSet(s.xs[t].due) && s.usingTimer && timerOk ==>
         IsLeastPending(Items(Queue(s')), s'.timer))
  {
    hide FlagsAgree, StatusTellsWho, Before, IndexOf, AllFlagsAgree, ListedExactly, ReportsTellWho, LeastPending;
    var k := IndexOf(s.flying, t);
    var x := s.xs[t].(phase := phase);
    DelistCore(s, t, x);
    var s1, s' := Delist(s, k, x), RemoveFromList(s, t, phase, timerOk);
    CoreWithoutTimer(s1, s');
    LeastOfOrdered(Queue(s1));
    NoDuplicates(s);
    if k == 0 && !IsSet(s.xs[t].due) && s'.flying != [] {
      assert Before(Queue(s)[0], Queue(s)[1]);
      NotDueAfterNever(s);
    }
  }

  lemma {:induction false} UpdateInv(s: State, s': State, t: Id)
    requires Inv(s) && t in s.xs && t in s'.xs
    requires s' == s.(xs := s.xs[t := s'.xs[t]], lock := s'.lock, reports := s'.reports)
    requires var x, x' := s.xs[t], s'.xs[t];
      x'.due == x.due && x'.seqno == x.seqno && (Listed(x') <==> Listed(x)) && (Skip(x) ==> Skip(x'))
    requires FlagsAgree(s'.xs[t], Marking(s', t)) && forall u :: u != t ==> Marking(s', u) == Marking(s, u)
    requires ScanInPlace(s') && ReportsTellWho(s')
    ensures Inv(s')
  {
    UpdateOne(s, s', t);
    hide FlagsAgree, StatusTellsWho, Before;
  }

  lemma {:induction false} CloseIsCore(s: State)
    requires Core(s)
    ensures Core(s.(closedInFlight := true))
  {
    hide FlagsAgree, StatusTellsWho, Before;
    assert Queue(s.(closedInFlight := true)) == Queue(s);
  }

  lemma {:induction false} DropInv(s: State, t: Id)
    requires Inv(s) && Enabled(s, Drop(t))
    ensures Inv(Next(s, Drop(t)))
  {
    assert t in s.flying && !Marking(s, t);
    hide StatusTellsWho, Before, IndexOf, Core;
    var k := IndexOf(s.flying, t);
    var x := s.xs[t].(phase := Dropped);
    assert FlagsAgree(x, false);
    DelistCore(s, t, x);
    CloseIsCore(Delist(s, k, x));
  }

  /** A request to cancel, by the user or by a scan that has yet to mark, keeps the flags in agreement;
      the result says whether the backend accepted it just now. */
  lemma {:induction false} CancelAgrees(x: Xfer, who: Canceller, answer: int, marking: bool)
    requires FlagsAgree(x, marking) && !x.phase.Submitting?
    requires who.Timeout? ==> !marking && Listed(x) && IsSet(x.due) && !After(x.due, who.at)
    ensures FlagsAgree(CancelBy(x, who, answer), marking || (who.Timeout? && Cancel(x.flags, answer).1 == SUCCESS))
  {
    if x.flags.inFlight && !x.flags.cancelling {
      assert CancelBy(x, who, answer).flags.answers == [answer];
    }
  }

  lemma {:induction false} CancelInv(s: State, t: Id, answer: int)
    requires Inv(s) && Enabled(s, UserCancel(t, answer))
    ensures Inv(Next(s, UserCancel(t, answer)))
  {
    CancelAgrees(s.xs[t], User, answer, Marking(s, t));
    hide FlagsAgree, StatusTellsWho, Before, NotAfter;
    UpdateInv(s, Next(s, UserCancel(t, answer)), t);
  }

  lemma {:induction false} ScanCancelInv(s: State, answer: int)
    requires Inv(s) && Enabled(s, ScanCancel(answer))
    ensures Inv(Next(s, ScanCancel(answer)))
  {
    var t := s.flying[s.lock.pos];
    var x := s.xs[t];
    assert t in s.flying && FlagsAgree(x, false);
    CancelAgrees(x, Timeout(s.lock.at), answer, false);
    hide FlagsAgree, StatusTellsWho, Before, NotAfter;
    UpdateInv(s, Next(s, ScanCancel(answer)), t);
  }

  lemma {:induction false} ScanChooseInv(s: State)
    requires Inv(s) && Enabled(s, ScanChoose)
    ensures Inv(Next(s, ScanChoose))
  {
    var t := s.flying[s.lock.pos];
    assert FlagsAgree(s.xs[t], false) && FlagsAgree(Next(s, ScanChoose).xs[t], false);
    hide FlagsAgree, StatusTellsWho, Before, NotAfter;
    UpdateInv(s, Next(s, ScanChoose), t);
  }

  lemma {:induction false} ScanMarkInv(s: State)
    requires Inv(s) && Enabled(s, ScanMark)
    ensures Inv(Next(s, ScanMark))
  {
    hide Before, NotAfter;
    var t := s.flying[s.lock.pos];
    assert FlagsAgree(s.xs[t], s.lock.mark == Some(SUCCESS));
    assert FlagsAgree(Next(s, ScanMark).xs[t], false);
    UpdateInv(s, Next(s, ScanMark), t);
  }

  lemma {:induction false} SubmitEndInv(s: State, t: Id, ok: bool, osHandles: bool)
    requires Inv(s) && Enabled(s, SubmitEnd(t, ok, osHandles))
    ensures Inv(Next(s, SubmitEnd(t, ok, osHandles)))
  {
    hide StatusTellsWho, Before, NotAfter;
    UpdateInv(s, Next(s, SubmitEnd(t, ok, osHandles)), t);
  }

  lemma {:induction false} ReapInv(s: State, a: Action)
    requires Inv(s) && Enabled(s, a) && (a.Reap? || a.ReapCancelled?)
    ensures Inv(Next(s, a))
  {
    hide Before, NotAfter, After, IsSet, Queue, TimerMatchesHead, ListedExactly, Ordered;
    UpdateInv(s, Next(s, a), a.t);
  }

  lemma {:induction false} CompleteInv(s: State, t: Id)
    requires Inv(s) && Enabled(s, Complete(t))
    ensures Inv(Next(s, Complete(t)))
  {
    hide StatusTellsWho, Before, NotAfter;
    UpdateInv(s, Next(s, Complete(t)), t);
  }

  /** A scan, if there is one, is between two transfers. */
  predicate Between(lock: Lock) {
    lock.Scan? ==> lock.mark == None && !lock.chosen
  }

  /** Moving the clock or the scan, or setting the timer to the least pending deadline. */
  lemma {:induction false} AsideInv(s: State, s': State)
    requires Inv(s) && s' == s.(now := s'.now, lock := s'.lock, timer := s'.timer, timerFailed := s'.timerFailed)
    requires s'.lock == s.lock || (Between(s.lock) && Between(s'.lock))
    requires s'.timer == s.timer || s'.timer == LeastPending(Items(Queue(s)))
    requires s.timerFailed ==> s'.timerFailed
    ensures Inv(s')
  {
    hide FlagsAgree, StatusTellsWho, Before, NotAfter, LeastPending;
    assert Queue(s') == Queue(s);
    LeastOfOrdered(Queue(s));
    assert forall t :: Marking(s, t) == Marking(s', t);
  }

  /** Every action keeps the invariant. */
  lemma {:induction false} NextInv(s: State, a: Action)
    requires Inv(s) && Enabled(s, a)
    ensures Inv(Next(s, a))
  {
    match a
    case Tick(_) => AsideInv(s, Next(s, a));
    case SubmitBegin(t, due, timerOk) => SubmitInv(s, t, due, timerOk);
    case SubmitEnd(t, ok, osHandles) => SubmitEndInv(s, t, ok, osHandles);
    case SubmitUndo(t, timerOk) => RemoveInv(s, t, Idle, timerOk);
    case UserCancel(t, answer) => CancelInv(s, t, answer);
    case ScanBegin(_) => AsideInv(s, Next(s, a));
    case ScanPass => AsideInv(s, Next(s, a));
    case ScanChoose => ScanChooseInv(s);
    case ScanCancel(answer) => ScanCancelInv(s, answer);
    case ScanMark => ScanMarkInv(s);
    case ScanEnd(_) => AsideInv(s, Next(s, a));
    case Reap(_, _) => ReapInv(s, a);
    case ReapCancelled(_) => ReapInv(s, a);
    case Unlist(t, timerOk) => RemoveInv(s, t, Completing(s.xs[t].phase.status, s.xs[t].phase.cancelled), timerOk);
    case Complete(t) => CompleteInv(s, t);
    case Drop(t) => DropInv(s, t);
  }

  /** A context no transfer has been submitted to yet. */
  ghost predicate Initial(s: State) {
    && s.flying == [] && s.lock == Free && s.timer == None && s.reports == [] && !s.timerFailed && !s.closedInFlight
    && forall t :: t in s.xs ==> s.xs[t].phase == Idle && s.xs[t].flags == CLEAR && s.xs[t].accepted == None
  }

  ghost predicate CanRun(s: State, run: seq<Action>)
    decreases |run|
  {
    run == [] || (Known(s) && Enabled(s, run[0]) && CanRun(Next(s, run[0]), run[1..]))
  }

  ghost function Run(s: State, run: seq<Action>): State
    requires CanRun(s, run)
    decreases |run|
  {
    if run == [] then s else Run(Next(s, run[0]), run[1..])
  }

  lemma {:induction false} RunInv(s: State, run: seq<Action>)
    requires Inv(s) && CanRun(s, run)
    ensures Inv(Run(s, run))
    decreases |run|
  {
    if run != [] {
      NextInv(s, run[0]);
      RunInv(Next(s, run[0]), run[1..]);
    }
  }

  /** After any run, the flying list holds exactly the listed transfers, each once, by deadline with
      infinite ones last and ties in the order of submission. */
  lemma {:induction false} AlwaysSorted(s: State, run: seq<Action>)
    requires Initial(s) && CanRun(s, run)
    ensures var s' := Run(s, run);
      && Known(s') && Distinct(s'.flying)
      && (forall t :: t in s'.xs ==> (t in s'.flying <==> Listed(s'.xs[t])))
      && forall i, j :: 0 <= i < j < |s'.flying| ==>
           var x, y := s'.xs[s'.flying[i]], s'.xs[s'.flying[j]];
           NotAfter(x.due, y.due) && (x.due == y.due ==> x.seqno < y.seqno)
  {
    RunInv(s, run);
    var s' := Run(s, run);
    NoDuplicates(s');
    forall i, j | 0 <= i < j < |s'.flying|
      ensures var x, y := s'.xs[s'.flying[i]], s'.xs[s'.flying[j]];
              NotAfter(x.due, y.due) && (x.due == y.due ==> x.seqno < y.seqno)
    {
      assert Before(Queue(s')[i], Queue(s')[j]);
    }
  }

  lemma {:induction false} ListKeepsUsingTimer(s: State, t: Id, due: Timespec, phase: Phase, timerOk: bool)
    requires Known(s) && t in s.xs
    ensures Submit(s, t, due, timerOk).usingTimer == s.usingTimer
    ensures t in s.flying ==> RemoveFromList(s, t, phase, timerOk).usingTimer == s.usingTimer
  {
    hide Items, Queue, LeastPending, InsertionPoint, Timeouts, IndexOf, IsSet;
  }

  lemma {:induction false} NextKeepsUsingTimer(s: State, a: Action)
    requires Known(s) && Enabled(s, a)
    ensures Next(s, a).usingTimer == s.usingTimer
  {
    hide Known, Items, Queue, LeastPending, IndexOf, Skip, CancelBy, After, IsSet, Submit, RemoveFromList;
    match a
    case SubmitBegin(t, due, timerOk) => ListKeepsUsingTimer(s, t, due, Idle, timerOk);
    case SubmitUndo(t, timerOk) => ListKeepsUsingTimer(s, t, CLEARED, Idle, timerOk);
    case Unlist(t, timerOk) =>
      ListKeepsUsingTimer(s, t, CLEARED, Completing(s.xs[t].phase.status, s.xs[t].phase.cancelled), timerOk);
    case _ =>
  }

  lemma {:induction false} UsingTimerStays(s: State, run: seq<Action>)
    requires CanRun(s, run)
    ensures Run(s, run).usingTimer == s.usingTimer
    decreases |run|
  {
    hide Next, Enabled, Known;
    if run != [] {
      NextKeepsUsingTimer(s, run[0]);
      UsingTimerStays(Next(s, run[0]), run[1..]);
    }
  }

  /** After any run in which the timer calls succeed and no handle is closed under flying transfers,
      the timer is set to the deadline of the first transfer if that still waits for it. */
  lemma {:induction false} TimerFollowsHead(s: State, run: seq<Action>)
    requires Initial(s) && CanRun(s, run) && s.usingTimer
    ensures var s' := Run(s, run);
      Known(s') && (!s'.timerFailed && !s'.closedInFlight && s'.flying != [] && Waiting(Queue(s')[0])
                    ==> s'.usingTimer && s'.timer == Some(Queue(s')[0].due))
    decreases |run|
  {
    RunInv(s, run);
    UsingTimerStays(s, run);
  }

  /** Over any run the backend is asked to cancel a submission at most once, and a transfer reported
      through its cancellation is TIMED_OUT exactly if a timeout scan got the cancellation accepted
      after the deadline had passed, CANCELLED if the user did. */
  lemma {:induction false} FirstCancellerDecides(s: State, run: seq<Action>)
    requires Initial(s) && CanRun(s, run)
    ensures forall t :: t in Run(s, run).xs ==> |Run(s, run).xs[t].flags.answers| <= 1
    ensures forall r :: r in Run(s, run).reports && r.cancelled ==>
      && (r.status == TIMED_OUT <==>
         exists at :: r.x.accepted == Some(Timeout(at)) && IsSet(r.x.due) && !After(r.x.due, at))
      && (r.status == CANCELLED <==> r.x.accepted == Some(User))
  {
    RunInv(s, run);
    var s' := Run(s, run);
    forall r | r in s'.reports && r.cancelled
      ensures r.status == TIMED_OUT <==>
              exists at :: r.x.accepted == Some(Timeout(at)) && IsSet(r.x.due) && !After(r.x.due, at)
      ensures r.status == CANCELLED <==> r.x.accepted == Some(User)
    {
      assert StatusTellsWho(r.x, r.status);
      if r.x.accepted.value.Timeout? {
        assert r.x.accepted == Some(Timeout(r.x.accepted.value.at));
      }
    }
  }

  /** The scan of a timer trigger leaves the timer at the least deadline still waited for. */
  lemma {:induction false} TriggerRearms(s: State)
    requires Inv(s) && Enabled(s, ScanEnd(true)) && s.lock.trigger && s.usingTimer
    ensures IsLeastPending(Items(Queue(s)), Next(s, ScanEnd(true)).timer)
  {
    LeastOfOrdered(Queue(s));
  }

  /** Taking the first transfer off the list, when it had a deadline, leaves the timer there too. */
  lemma {:induction false} RemovalRearms(s: State, t: Id)
    requires Inv(s) && Enabled(s, Unlist(t, true)) && s.usingTimer && t in s.flying && s.flying[0] == t
    requires IsSet(s.xs[t].due)
    ensures var s' := Next(s, Unlist(t, true));
      Known(s') && s'.flying == s.flying[1..] && IsLeastPending(Items(Queue(s')), s'.timer)
  {
    NextInv(s, Unlist(t, true));
    var s' := Next(s, Unlist(t, true));
    hide LeastPending, Items, Queue;
    LeastOfOrdered(Queue(s'));
    assert IndexOf(s.flying, t) == 0 && s.flying[..0] + s.flying[1..] == s.flying[1..];
  }

  lemma {:induction false} CoreKnows(s: State)
    requires Core(s)
    ensures Known(s)
  {
  }

  lemma {:induction false} NotSkipped(x: Xfer)
    requires x.flags == CLEAR
    ensures !Skip(x)
  {
  }

  lemma {:induction false} ItemsAfterInsert(q: seq<Xfer>, x: Xfer, k: nat)
    requires k <= |q|
    ensures Items(q[..k] + [x] + q[k..]) == Items(q)[..k] + [Item(x.due, Skip(x))] + Items(q)[k..]
  {
  }

  /** It would be too much to say that the timer always is at the least deadline waited for: a submission
      keeps that up exactly if the new transfer has no deadline, comes first, or is due no sooner than
      the timer. Behind a first transfer that was already timed out, it waits without a timer. */
  lemma {:induction false} SubmitKeepsTimerIff(s: State, t: Id, due: Timespec)
    requires Core(s) && s.lock.Free? && t in s.xs && s.xs[t].phase.Idle? && Normal(due) && s.usingTimer
    requires s.timer == LeastPending(Items(Queue(s)))
    ensures var s' := Submit(s, t, due, true);
      var k := InsertionPoint(Timeouts(Items(Queue(s))), due);
      Known(s') && (s'.timer == LeastPending(Items(Queue(s'))) <==>
                    !IsSet(due) || k == 0 || (s.timer.Some? && !After(s.timer.value, due)))
  {
    assert Known(s) && t !in s.flying;
    DuesAreSorted(Queue(s));
    hide *;
    var k := InsertionPoint(Timeouts(Items(Queue(s))), due);
    var y := s.xs[t].(due := due, flags := CLEAR, accepted := None, phase := Submitting, seqno := s.submissions);
    var s' := Submit(s, t, due, true);
    SubmitIs(s, t, due, true);
    EnlistCore(s, t, y);
    CoreWithoutTimer(Enlist(s.(submissions := s.submissions + 1), t, y, k), s');
    CoreKnows(s');
    LeastAfterInsert(Items(Queue(s)), due);
    NotSkipped(y);
    ItemsAfterInsert(Queue(s), y, k);
  }

  lemma {:induction false} Extend(s: State, run: seq<Action>, a: Action)
    requires CanRun(s, run) && Known(Run(s, run)) && Enabled(Run(s, run), a)
    ensures CanRun(s, run + [a]) && Run(s, run + [a]) == Next(Run(s, run), a)
    decreases |run|
  {
    if run == [] {
      assert (run + [a])[1..] == [];
    } else {
      assert (run + [a])[1..] == run[1..] + [a];
      Extend(Next(s, run[0]), run[1..], a);
    }
  }

  /** A run after which the only listed transfer is in flight and late. */
  lemma {:induction false} LateHead() returns (s: State, run: seq<Action>)
    ensures Initial(s) && s.usingTimer && CanRun(s, run)
    ensures var s' := Run(s, run);
      && s'.flying == [1] && 1 in s'.xs && 2 in s'.xs && s'.xs[2].phase.Idle? && s'.lock == Free
      && s'.now == Timespec(2, 0)
      && s'.xs[1].phase == InFlight && s'.xs[1].due == Timespec(1, 0) && s'.xs[1].flags == CLEAR.(inFlight := true)
      && s'.usingTimer && !s'.timerFailed && !s'.closedInFlight
  {
    var idle := Xfer(Idle, CLEARED, 0, CLEAR, None);
    s := State([], map[1 := idle, 2 := idle], Free, Timespec(0, 0), 0, true, None, false, false, []);
    var submit := SubmitBegin(1, Timespec(1, 0), true);
    Extend(s, [], submit);
    run := [] + [submit];
    assert Run(s, run).flying == [1];
    Extend(s, run, SubmitEnd(1, true, false));
    run := run + [SubmitEnd(1, true, false)];
    Extend(s, run, Tick(Timespec(2, 0)));
    run := run + [Tick(Timespec(2, 0))];
  }

  /** A run after which the only listed transfer has been timed out and not yet completed. */
  lemma {:induction false} TimedOutHead() returns (s: State, run: seq<Action>)
    ensures Initial(s) && s.usingTimer && CanRun(s, run)
    ensures var s' := Run(s, run);
      && s'.flying == [1] && 1 in s'.xs && 2 in s'.xs && s'.xs[2].phase.Idle?
      && s'.lock == Scan(1, Timespec(2, 0), true, None, false)
      && s'.usingTimer && !s'.timerFailed && !s'.closedInFlight && Queue(s')[0].due == Timespec(1, 0)
      && Skip(Queue(s')[0])
  {
    hide LeastPending, InsertionPoint, IsInsertionPoint, Timeouts, Items, IndexOf;
    s, run := LateHead();
    Extend(s, run, ScanBegin(true));
    run := run + [ScanBegin(true)];
    Extend(s, run, ScanChoose);
    run := run + [ScanChoose];
    Extend(s, run, ScanCancel(SUCCESS));
    run := run + [ScanCancel(SUCCESS)];
    Extend(s, run, ScanMark);
    run := run + [ScanMark];
  }

  /** A run that leaves a transfer waiting with the timer off: the second transfer joins the list while
      the first is still on it, timed out but not yet completed. */
  lemma {:induction false} WaitsWithoutTimer() returns (s: State, run: seq<Action>)
    ensures Initial(s) && s.usingTimer && CanRun(s, run)
    ensures var s' := Run(s, run);
      !s'.timerFailed && !s'.closedInFlight && Known(s') && s'.timer == None && exists x :: x in Queue(s') && Waiting(x)
  {
    s, run := TimedOutHead();
    var s1 := Run(s, run);
    assert LeastPending(Items(Queue(s1))) == None;
    Extend(s, run, ScanEnd(true));
    run := run + [ScanEnd(true)];
    var s2 := Run(s, run);
    assert Queue(s2) == Queue(s1) && Timeouts(Items(Queue(s2))) == [Timespec(1, 0)];
    var due := Timespec(5, 0);
    assert InsertionPoint([Timespec(1, 0)], due) == 1;
    Extend(s, run, SubmitBegin(2, due, true));
    run := run + [SubmitBegin(2, due, true)];
    assert Run(s, run).flying == [1, 2];
    assert Waiting(Queue(Run(s, run))[1]);
  }
}
