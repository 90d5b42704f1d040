/** Whether the timer is always at the least deadline still waited for. It is not; this is exactly when an action
    keeps it there. */
module LifecycleTimer {
  import opened IntrusiveList
  import opened Deadlines
  import opened TransferState
  import opened Lifecycle
  import opened LifecycleProofs

  /** Is another item than the k-th waited for with the same deadline? */
  ghost predicate Rivalled(items: seq<Item>, k: nat)
    requires k < |items|
  {
    exists j :: 0 <= j < |items| && j != k && Pending(items[j]) && items[j].timeout == items[k].timeout
  }

  /** Item k alone makes its deadline the least pending one. */
  ghost predicate Sole(items: seq<Item>, k: nat)
    requires k < |items|
  {
    Pending(items[k]) && LeastPending(items) == Some(items[k].timeout) && !Rivalled(items, k)
  }

  function Skipped(it: Item): Item {
    it.(skip := true)
  }

  lemma {:induction false} SortedRest(it: Item, rest: seq<Item>)
    requires Sorted(Timeouts([it] + rest))
    ensures Sorted(Timeouts(rest))
  {
    assert Timeouts([it] + rest)[1..] == Timeouts(rest);
  }

  lemma {:induction false} NotBefore(it: Item, rest: seq<Item>, i: nat)
    requires Sorted(Timeouts([it] + rest)) && i < |rest| && Pending(rest[i])
    ensures !After(it.timeout, rest[i].timeout)
  {
    assert NotAfter(Timeouts([it] + rest)[0], Timeouts([it] + rest)[i + 1]);
  }

  lemma {:induction false} SameDue(a: Timespec, b: Timespec)
    requires !After(a, b) && !After(b, a)
    ensures a == b
  {
  }

  /** Behind a pending item, the least is its deadline again only if another item has the same. */
  lemma {:induction false} LeastBehind(it: Item, rest: seq<Item>)
    requires Sorted(Timeouts([it] + rest)) && Pending(it)
    ensures LeastPending(rest) == Some(it.timeout) <==>
            exists j :: 0 <= j < |rest| && Pending(rest[j]) && rest[j].timeout == it.timeout
  {
    SortedRest(it, rest);
    assert IsLeastPending(rest, LeastPending(rest));
    hide Pending, LeastPending;
    if j :| 0 <= j < |rest| && Pending(rest[j]) && rest[j].timeout == it.timeout {
      var d := LeastPending(rest).value;
      var i :| 0 <= i < |rest| && Pending(rest[i]) && rest[i].timeout == d;
      NotBefore(it, rest, i);
      SameDue(d, it.timeout);
    }
  }

  lemma {:induction false} RivalOfFirst(it: Item, rest: seq<Item>)
    ensures Rivalled([it] + rest, 0) <==>
            exists j :: 0 <= j < |rest| && Pending(rest[j]) && rest[j].timeout == it.timeout
  {
    hide Pending;
    var items := [it] + rest;
    if j :| 0 <= j < |items| && j != 0 && Pending(items[j]) && items[j].timeout == items[0].timeout {
      assert rest[j - 1] == items[j];
    }
    if j :| 0 <= j < |rest| && Pending(rest[j]) && rest[j].timeout == it.timeout {
      assert items[j + 1] == rest[j];
    }
  }

  lemma {:induction false} SoleFirst(it: Item, rest: seq<Item>)
    requires Sorted(Timeouts([it] + rest))
    ensures Sole([it] + rest, 0) <==> Pending(it) && LeastPending(rest) != Some(it.timeout)
  {
    assert ([it] + rest)[0] == it;
    hide Pending, LeastPending, Timeouts, Sorted, Rivalled;
    LeastOfFirst(it, rest);
    RivalOfFirst(it, rest);
    if Pending(it) {
      LeastBehind(it, rest);
    }
  }

  lemma {:induction false} RivalOfLater(it: Item, rest: seq<Item>, k: nat)
    requires k < |rest|
    ensures ([it] + rest)[k + 1] == rest[k]
    ensures Rivalled([it] + rest, k + 1) <==> (Pending(it) && it.timeout == rest[k].timeout) || Rivalled(rest, k)
  {
    hide Pending;
    var items := [it] + rest;
    if j :| 0 <= j < |items| && j != k + 1 && Pending(items[j]) && items[j].timeout == items[k + 1].timeout {
      assert items[j] == if j == 0 then it else rest[j - 1];
    }
    if Pending(it) && it.timeout == rest[k].timeout {
      assert items[0] == it;
    }
    if j :| 0 <= j < |rest| && j != k && Pending(rest[j]) && rest[j].timeout == rest[k].timeout {
      assert items[j + 1] == rest[j];
    }
  }

  lemma {:induction false} SoleLater(it: Item, rest: seq<Item>, k: nat)
    requires k < |rest|
    ensures Sole([it] + rest, k + 1) <==> !Pending(it) && Sole(rest, k)
  {
    hide Pending, LeastPending, Rivalled;
    LeastOfFirst(it, rest);
    RivalOfLater(it, rest, k);
  }

  /** When an item stops being waited for, the least pending deadline changes just if it was the sole one. */
  lemma {:induction false} LeastWithoutIff(items: seq<Item>, k: nat)
    requires Sorted(Timeouts(items)) && k < |items|
    ensures LeastPending(items[k := Skipped(items[k])]) == LeastPending(items) <==> !Sole(items, k)
    decreases |items|
  {
    hide LeastPending, Timeouts, Sorted, Sole;
    var it, rest := items[0], items[1..];
    assert items == [it] + rest;
    LeastOfFirst(it, rest);
    if k == 0 {
      assert items[0 := Skipped(it)] == [Skipped(it)] + rest;
      LeastOfFirst(Skipped(it), rest);
      SoleFirst(it, rest);
    } else {
      assert items[k := Skipped(items[k])] == [it] + rest[k - 1 := Skipped(rest[k - 1])];
      LeastOfFirst(it, rest[k - 1 := Skipped(rest[k - 1])]);
      SortedRest(it, rest);
      SoleLater(it, rest, k - 1);
      if !Pending(it) {
        LeastWithoutIff(rest, k - 1);
      }
    }
  }

  lemma {:induction false} Headed<T>(items: seq<T>, k: nat, x: T)
    requires 0 < k < |items|
    ensures items[..k] + items[k + 1..] == [items[0]] + (items[1..][..k - 1] + items[1..][k..])
    ensures items[k := x] == [items[0]] + items[1..][k - 1 := x]
  {
  }

  /** To a scan, an item taken off the list is no different from one that is passed over. */
  lemma {:induction false} RemovedIsSkipped(items: seq<Item>, k: nat)
    requires k < |items|
    ensures LeastPending(items[..k] + items[k + 1..]) == LeastPending(items[k := Skipped(items[k])])
    decreases |items|
  {
    hide LeastPending;
    var it, rest, x := items[0], items[1..], Skipped(items[k]);
    if k == 0 {
      assert items[0 := x] == [x] + rest && items[..0] + items[1..] == rest;
      LeastOfFirst(x, rest);
    } else {
      assert rest[k - 1] == items[k];
      RemovedIsSkipped(rest, k - 1);
      Headed(items, k, x);
      hide *;
      LeastOfFirst(it, rest[..k - 1] + rest[k..]);
      LeastOfFirst(it, rest[k - 1 := x]);
    }
  }

  /** The timer is at the least deadline that any listed transfer waits for. */
  ghost predicate WholeListTimed(s: State) {
    Known(s) && s.timer == LeastPending(Items(Queue(s)))
  }

  /** Only for the sake of `t` is the timer where it is. */
  ghost predicate Decides(s: State, t: Id)
    requires Known(s)
  {
    && t in s.flying && t in s.xs && Waiting(s.xs[t]) && s.timer == Some(s.xs[t].due)
    && forall u :: u in s.flying && u in s.xs && u != t ==> !(Waiting(s.xs[u]) && s.xs[u].due == s.xs[t].due)
  }

  lemma {:induction false} DecidesIsSole(s: State, k: nat)
    requires Core(s) && WholeListTimed(s) && k < |s.flying|
    ensures Decides(s, s.flying[k]) <==> Sole(Items(Queue(s)), k)
  {
    NoDuplicates(s);
    var items := Items(Queue(s));
    hide Core, LeastPending;
    assert forall j :: 0 <= j < |items| ==> (Pending(items[j]) <==> Waiting(s.xs[s.flying[j]]));
    assert forall j :: 0 <= j < |items| ==> items[j].timeout == s.xs[s.flying[j]].due;
    assert forall j :: 0 <= j < |items| && j != k ==> s.flying[j] != s.flying[k];
  }

  /** The actions that leave the timer at the least deadline waited for: a submission unless it puts the new deadline
      behind the first place and before the timer; whatever ends the wait of a transfer, save in the first
      place with a deadline where the timer is set again, unless only that transfer decided. */
  ghost predicate Keeps(s: State, a: Action)
    requires Known(s) && Enabled(s, a)
  {
    match a
    case SubmitBegin(t, due, _) =>
      || !IsSet(due) || InsertionPoint(Timeouts(Items(Queue(s))), due) == 0
      || (s.timer.Some? && !After(s.timer.value, due))
    case SubmitEnd(t, _, osHandles) => !osHandles || !Decides(s, t)
    case ScanChoose => !Decides(s, s.flying[s.lock.pos])
    case SubmitUndo(t, _) => (s.flying != [] && s.flying[0] == t) || !Decides(s, t)
    case Unlist(t, _) => (s.flying != [] && s.flying[0] == t) || !Decides(s, t)
    case Drop(t) => !Decides(s, t)
    case _ => true
  }

  /** The calls an action makes to set the timer succeed. */
  predicate TimerCallsSucceed(a: Action) {
    match a
    case SubmitBegin(_, _, timerOk) => timerOk
    case SubmitUndo(_, timerOk) => timerOk
    case ScanEnd(timerOk) => timerOk
    case Unlist(_, timerOk) => timerOk
    case _ => true
  }

  /** Nothing a scan looks at changes, or one item stops being waited for. */
  lemma {:induction false} SameItems(s: State, s': State)
    requires Known(s) && s'.flying == s.flying && s'.timer == s.timer
    requires forall u :: u in s.flying ==> u in s'.xs && s'.xs[u].due == s.xs[u].due && Skip(s'.xs[u]) == Skip(s.xs[u])
    ensures Known(s') && (WholeListTimed(s) <==> WholeListTimed(s'))
  {
    assert Items(Queue(s')) == Items(Queue(s));
  }

  lemma {:induction false} SkipOne(s: State, s': State, k: nat)
    requires Core(s) && WholeListTimed(s) && k < |s.flying| && s'.flying == s.flying && s'.timer == s.timer
    requires forall u :: u in s.flying ==> u in s'.xs && s'.xs[u].due == s.xs[u].due
    requires forall u :: u in s.flying && u != s.flying[k] ==> Skip(s'.xs[u]) == Skip(s.xs[u])
    requires Skip(s'.xs[s.flying[k]])
    ensures WholeListTimed(s') <==> !Decides(s, s.flying[k])
  {
    NoDuplicates(s);
    DuesAreSorted(Queue(s));
    var items := Items(Queue(s));
    assert Items(Queue(s')) == items[k := Skipped(items[k])];
    LeastWithoutIff(items, k);
    DecidesIsSole(s, k);
  }

  lemma {:induction false} ItemsAfterRemove(q: seq<Xfer>, k: nat)
    requires k < |q|
    ensures Items(q[..k] + q[k + 1..]) == Items(q)[..k] + Items(q)[k + 1..]
  {
    hide Skip;
  }

  lemma {:induction false} TimedMeans(s: State)
    requires Known(s)
    ensures WholeListTimed(s) <==> s.timer == LeastPending(Items(Queue(s)))
  {
  }

  lemma {:induction false} LeastAfterRemove(q: seq<Xfer>, k: nat)
    requires Ordered(q) && k < |q|
    ensures LeastPending(Items(q[..k] + q[k + 1..])) == LeastPending(Items(q)) <==> !Sole(Items(q), k)
  {
    hide *;
    DuesAreSorted(q);
    ItemsAfterRemove(q, k);
    RemovedIsSkipped(Items(q), k);
    LeastWithoutIff(Items(q), k);
  }

  lemma {:induction false} RemoveOne(s: State, t: Id, x: Xfer, s': State)
    requires Core(s) && s.lock.Free? && WholeListTimed(s) && t in s.flying && t in s.xs && !Listed(x)
    requires FlagsAgree(x, false)
    requires Known(s') && Queue(s') == Queue(Delist(s, IndexOf(s.flying, t), x)) && s'.timer == s.timer
    ensures WholeListTimed(s') <==> !Decides(s, t)
  {
    var k := IndexOf(s.flying, t);
    assert Known(s) && Ordered(Queue(s));
    hide *;
    TimedMeans(s);
    TimedMeans(s');
    DelistCore(s, t, x);
    LeastAfterRemove(Queue(s), k);
    DecidesIsSole(s, k);
  }

  lemma {:induction false} SubmitEndKeeps(s: State, t: Id, ok: bool, osHandles: bool)
    requires Inv(s) && Enabled(s, SubmitEnd(t, ok, osHandles)) && WholeListTimed(s)
    ensures WholeListTimed(Next(s, SubmitEnd(t, ok, osHandles))) <==> !osHandles || !Decides(s, t)
  {
    var s' := Next(s, SubmitEnd(t, ok, osHandles));
    assert t in s.flying;
    if osHandles {
      var k :| 0 <= k < |s.flying| && s.flying[k] == t;
      SkipOne(s, s', k);
    } else {
      SameItems(s, s');
    }
  }

  lemma {:induction false} ChooseIs(s: State)
    requires Known(s) && Enabled(s, ScanChoose)
    ensures var s', t := Next(s, ScanChoose), s.flying[s.lock.pos];
      && s'.flying == s.flying && s'.timer == s.timer
      && (forall u :: u in s.flying ==> u in s'.xs && s'.xs[u].due == s.xs[u].due)
      && (forall u :: u in s.flying && u != t ==> Skip(s'.xs[u]) == Skip(s.xs[u])) && Skip(s'.xs[t])
  {
    hide After, IsSet;
    assert forall i :: 0 <= i < |s.flying| ==> s.flying[i] in s.flying;
  }

  lemma {:induction false} ChooseKeeps(s: State)
    requires Inv(s) && Enabled(s, ScanChoose) && WholeListTimed(s)
    ensures WholeListTimed(Next(s, ScanChoose)) <==> !Decides(s, s.flying[s.lock.pos])
  {
    var s', k := Next(s, ScanChoose), s.lock.pos;
    assert Core(s) && k < |s.flying|;
    hide *;
    ChooseIs(s);
    SkipOne(s, s', k);
  }

  /** A scan for a timer sets it again at its end; any other scan leaves it alone. */
  lemma {:induction false} ScanEndKeeps(s: State)
    requires Inv(s) && Enabled(s, ScanEnd(true)) && s.usingTimer && WholeListTimed(s)
    ensures WholeListTimed(Next(s, ScanEnd(true)))
  {
    SameItems(s, Next(s, ScanEnd(true)));
  }

  lemma {:induction false} RemoveKeeps(s: State, t: Id, phase: Phase)
    requires Inv(s) && s.lock.Free? && t in s.xs && s.usingTimer && WholeListTimed(s)
    requires !Listed(s.xs[t].(phase := phase)) && FlagsAgree(s.xs[t].(phase := phase), false)
    requires t in s.flying
    ensures WholeListTimed(RemoveFromList(s, t, phase, true)) <==> s.flying[0] == t || !Decides(s, t)
  {
    NoDuplicates(s);
    var k, x := IndexOf(s.flying, t), s.xs[t].(phase := phase);
    var s1, s' := Delist(s, k, x), RemoveFromList(s, t, phase, true);
    DelistCore(s, t, x);
    RemoveOne(s, t, x, s1);
    assert Queue(s') == Queue(s1);
    assert k == 0 <==> s.flying[0] == t;
    hide Core, LeastPending, AllFlagsAgree;
    if !(IsSet(s.xs[t].due) && k == 0) {
      assert s' == s1;
      assert k == 0 ==> !Decides(s, t);
    }
  }

  lemma {:induction false} DropKeeps(s: State, t: Id)
    requires Inv(s) && Enabled(s, Drop(t)) && WholeListTimed(s)
    ensures WholeListTimed(Next(s, Drop(t))) <==> !Decides(s, t)
  {
    var k, x := IndexOf(s.flying, t), s.xs[t].(phase := Dropped);
    var s1, s' := Delist(s, k, x), Next(s, Drop(t));
    assert t in s.flying && FlagsAgree(s.xs[t], false) && FlagsAgree(x, false);
    DelistCore(s, t, x);
    assert Queue(s') == Queue(s1);
    RemoveOne(s, t, x, s');
  }

  lemma {:induction false} CancelKeepsSkip(x: Xfer, who: Canceller, answer: int)
    ensures CancelBy(x, who, answer).due == x.due && Skip(CancelBy(x, who, answer)) == Skip(x)
  {
  }

  lemma {:induction false} CancelKeeps(s: State, a: Action)
    requires WholeListTimed(s) && Enabled(s, a) && (a.UserCancel? || a.ScanCancel?)
    ensures WholeListTimed(Next(s, a))
  {
    var t := if a.UserCancel? then a.t else s.flying[s.lock.pos];
    var who := if a.UserCancel? then User else Timeout(s.lock.at);
    CancelKeepsSkip(s.xs[t], who, a.answer);
    hide LeastPending, Items, Queue, After, WholeListTimed, Cancel, CancelBy, Skip;
    SameItems(s, Next(s, a));
  }

  lemma {:induction false} LookingKeeps(s: State, a: Action)
    requires WholeListTimed(s) && Enabled(s, a) && (a.Tick? || a.ScanBegin? || a.ScanPass?)
    ensures WholeListTimed(Next(s, a))
  {
    assert Known(s);
    hide LeastPending, Items, Queue, After, WholeListTimed, Skip;
    SameItems(s, Next(s, a));
  }

  lemma {:induction false} ReapKeeps(s: State, a: Action)
    requires WholeListTimed(s) && Enabled(s, a) && (a.Reap? || a.ReapCancelled? || a.Complete?)
    ensures WholeListTimed(Next(s, a))
  {
    assert Known(s);
    hide LeastPending, Items, Queue, After, WholeListTimed;
    SameItems(s, Next(s, a));
  }

  lemma {:induction false} MarkKeeps(s: State)
    requires WholeListTimed(s) && Enabled(s, ScanMark)
    ensures WholeListTimed(Next(s, ScanMark))
  {
    assert Known(s);
    hide LeastPending, Items, Queue, WholeListTimed;
    SameItems(s, Next(s, ScanMark));
  }

  lemma {:induction false} SubmitBeginKeeps(s: State, t: Id, due: Timespec)
    requires Inv(s) && Enabled(s, SubmitBegin(t, due, true)) && s.usingTimer && WholeListTimed(s)
    ensures WholeListTimed(Next(s, SubmitBegin(t, due, true))) <==> Keeps(s, SubmitBegin(t, due, true))
  {
    hide Core, Known, LeastPending, Items, Queue, InsertionPoint, Timeouts, After;
    SubmitKeepsTimerIff(s, t, due);
  }

  lemma {:induction false} RemovalKeeps(s: State, a: Action)
    requires Inv(s) && Enabled(s, a) && s.usingTimer && TimerCallsSucceed(a) && WholeListTimed(s)
    requires a.SubmitUndo? || a.Unlist?
    ensures WholeListTimed(Next(s, a)) <==> Keeps(s, a)
  {
    var t := a.t;
    assert t in s.flying && FlagsAgree(s.xs[t], false);
    hide Core, Known, LeastPending, Items, Queue, Decides, RemoveFromList;
    RemoveKeeps(s, t, if a.SubmitUndo? then Idle else Completing(s.xs[t].phase.status, s.xs[t].phase.cancelled));
  }

  /** Once the timer is at the least deadline waited for anywhere in the list, an action whose timer calls succeed keeps
      it there exactly in these cases. */
  lemma {:induction false} WholeListIff(s: State, a: Action)
    requires Inv(s) && Enabled(s, a) && s.usingTimer && TimerCallsSucceed(a) && WholeListTimed(s)
    ensures WholeListTimed(Next(s, a)) <==> Keeps(s, a)
  {
    hide Inv, Enabled, Next, WholeListTimed, Decides;
    match a
    case SubmitBegin(t, due, _) => SubmitBeginKeeps(s, t, due);
    case SubmitEnd(t, ok, osHandles) => SubmitEndKeeps(s, t, ok, osHandles);
    case ScanChoose => ChooseKeeps(s);
    case ScanEnd(_) => ScanEndKeeps(s);
    case SubmitUndo(_, _) => RemovalKeeps(s, a);
    case Unlist(_, _) => RemovalKeeps(s, a);
    case Drop(t) => DropKeeps(s, t);
    case UserCancel(_, _) => CancelKeeps(s, a);
    case ScanCancel(_) => CancelKeeps(s, a);
    case Tick(_) => LookingKeeps(s, a);
    case ScanBegin(_) => LookingKeeps(s, a);
    case ScanPass => LookingKeeps(s, a);
    case ScanMark => MarkKeeps(s);
    case _ => ReapKeeps(s, a);
  }
}
