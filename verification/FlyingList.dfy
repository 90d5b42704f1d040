/** The list of transfers in flight and everything io.c does by walking it: insertion by deadline,
    removal, arming the timer, timing transfers out and computing the next timeout. The list is the
    intrusive one of libusbi.h; several of these loops stop early because it is kept in order. */
module FlyingList {
  import opened IntrusiveList
  import opened Deadlines
  import opened TransferState

  /** How the flags `f` of a transfer with deadline `due` look after the timeouts at `now` were handled: just those
      that are due and that nobody else sees to have timed out. */
  ghost predicate AfterTimeouts(due: Timespec, f: Flags, now: Timespec, f': Flags) {
    if IsSet(due) && !After(due, now) && !f.handled && !f.osHandles then TimesOut(f, f') else f' == f
  }

  class Transfer {
    const list: ListHead<Transfer>
    var timeout: Timespec
    // state_flags
    var inFlight: bool
    var cancelling: bool
    var disappeared: bool
    // timeout_flags
    var handled: bool
    var osHandles: bool
    var timedOut: bool
    // the device handle it was submitted on; a close resets it
    var devHandle: Option<nat>
    // what the backend answered to the cancel requests made for this submission
    ghost var cancelAnswers: seq<int>

    constructor ()
      ensures fresh(list) && Linked(this)
    {
      timeout := CLEARED;
      inFlight, cancelling, disappeared := false, false, false;
      handled, osHandles, timedOut := false, false, false;
      devHandle, cancelAnswers := None, [];
      list := new ListHead(None);
      new;
      list.container := Some(this);
    }

    ghost function State(): Flags
      reads `inFlight, `cancelling, `disappeared, `handled, `osHandles, `timedOut, `cancelAnswers
    {
      Flags(inFlight, cancelling, disappeared, handled, osHandles, timedOut, cancelAnswers)
    }

    /** libusb_cancel_transfer: the backend is asked at most once per submission, whatever it answers. */
    method CancelTransfer() returns (r: int, ghost answer: int)
      modifies `cancelling, `disappeared, `cancelAnswers
      ensures (State(), r) == Cancel(old(State()), answer)
      ensures cancelAnswers == if old(inFlight && !cancelling) then old(cancelAnswers) + [r] else old(cancelAnswers)
      ensures cancelling == (old(cancelling) || inFlight) && (!old(inFlight && !cancelling) ==> r == ERROR_NOT_FOUND)
      ensures disappeared <==> old(disappeared) || (old(inFlight && !cancelling) && r == ERROR_NO_DEVICE)
    {
      answer := SUCCESS;
      if !inFlight || cancelling {
        return ERROR_NOT_FOUND, answer;
      }
      r := *;
      answer, cancelAnswers := r, cancelAnswers + [r];
      if r == ERROR_NO_DEVICE {
        disappeared := true;
      }
      cancelling := true;
    }

    /** handle_timeout */
    method TimeOut() returns (ghost answer: int)
      modifies `handled, `timedOut, `cancelling, `disappeared, `cancelAnswers
      ensures State() == HandleTimeout(old(State()), answer) && TimesOut(old(State()), State())
    {
      handled := true;
      var r;
      r, answer := CancelTransfer();
      if r == SUCCESS {
        timedOut := true;
      }
    }

    function Skip(): bool
      reads `handled, `osHandles
    {
      handled || osHandles
    }

    /** One round of handle_timeouts_locked; `done` ends the scan. */
    method CheckTimeout(now: Timespec) returns (done: bool)
      modifies `handled, `timedOut, `cancelling, `disappeared, `cancelAnswers
      ensures AfterTimeouts(timeout, old(State()), now, State())
      ensures done ==> !IsSet(timeout) || After(timeout, now)
    {
      if !IsSet(timeout) {
        return true;
      }
      if Skip() {
        return false;
      }
      if After(timeout, now) {
        return true;
      }
      ghost var answer := TimeOut();
      done := false;
    }
  }

  /** list_entry takes a node back to the transfer it is embedded in. */
  ghost predicate Linked(t: Transfer)
    reads t.list`container
  {
    t.list.container == Some(t)
  }

  /** What the scans of the flying list see. */
  ghost function Items(ts: seq<Transfer>): (its: seq<Item>)
    reads ts
    ensures |its| == |ts| && forall i :: 0 <= i < |ts| ==> its[i] == Item(ts[i].timeout, ts[i].Skip())
  {
    seq(|ts|, i requires 0 <= i < |ts| reads ts => Item(ts[i].timeout, ts[i].Skip()))
  }

  ghost function States(ts: seq<Transfer>): (fs: seq<Flags>)
    reads ts
    ensures |fs| == |ts| && forall i :: 0 <= i < |ts| ==> fs[i] == ts[i].State()
  {
    seq(|ts|, i requires 0 <= i < |ts| reads ts => ts[i].State())
  }

  /** The nodes and the deadlines of a sequence of transfers. */
  ghost predicate Describe(ts: seq<Transfer>, links: seq<ListHead<Transfer>>, dues: seq<Timespec>)
    reads links`container, ts`timeout
  {
    && |links| == |ts| == |dues|
    && (forall i :: 0 <= i < |ts| ==> links[i] == ts[i].list && links[i].container == Some(ts[i]))
    && (forall i :: 0 <= i < |ts| ==> ts[i].timeout == dues[i] && Normal(dues[i]))
  }

  lemma {:induction false} DescribeMore(ts: seq<Transfer>, links: seq<ListHead<Transfer>>, dues: seq<Timespec>, k: nat,
        t: Transfer)
    requires Describe(ts, links, dues) && k <= |ts| && Linked(t) && Normal(t.timeout)
    ensures Describe(ts[..k] + [t] + ts[k..], links[..k] + [t.list] + links[k..], dues[..k] + [t.timeout] + dues[k..])
  {
  }

  lemma {:induction false} DescribeLess(ts: seq<Transfer>, links: seq<ListHead<Transfer>>, dues: seq<Timespec>, k: nat)
    requires Describe(ts, links, dues) && k < |ts|
    ensures Describe(ts[..k] + ts[k + 1..], links[..k] + links[k + 1..], dues[..k] + dues[k + 1..])
  {
  }

  lemma {:induction false} TakenBack<T>(s: seq<T>, x: T, k: nat)
    requires k <= |s|
    ensures var t := s[..k] + [x] + s[k..]; t[..k] + t[k + 1..] == s
  {
  }

  class Context {
    const flying: ListHead<Transfer>
    const usingTimer: bool
    // when the OS timer goes off, None while it is disarmed
    var timer: Option<Timespec>
    // the transfers on the list, their nodes and their deadlines
    ghost var transfers: seq<Transfer>
    ghost var links: seq<ListHead<Transfer>>
    ghost var dues: seq<Timespec>
    // the completions reported to the user so far
    ghost var reported: seq<(Transfer, Status)>

    ghost predicate Valid()
      reads `transfers, `links, `dues, flying, links, transfers`timeout
    {
      && flying.container == None
      && IsList(flying, links)
      && Describe(transfers, links, dues)
      && Sorted(dues)
    }

    constructor (usingTimer: bool)
      ensures Valid() && transfers == [] && timer == None && fresh(flying) && this.usingTimer == usingTimer
    {
      this.usingTimer := usingTimer;
      flying := new ListHead(None);
      timer, transfers, links, dues, reported := None, [], [], [], [];
      new;
      ListInit(flying);
    }

    /** usbi_arm_timer and usbi_disarm_timer: the operating system may refuse, leaving the timer alone. */
    method SetTimer(deadline: Option<Timespec>) returns (r: int)
      modifies `timer
      ensures timer == if r == SUCCESS then deadline else old(timer)
    {
      r := *;
      if r == SUCCESS {
        timer := deadline;
      }
    }

    lemma {:induction false} Start()
      requires Valid()
      ensures |links| == |transfers| == |dues| && flying.next == NodeOrHead(flying, links, 0)
    {
    }

    /** One step along the list. */
    lemma {:induction false} Walk(k: nat)
      requires Valid() && k < |transfers|
      ensures links[k] != flying && links[k].container == Some(transfers[k])
      ensures links[k].next == NodeOrHead(flying, links, k + 1)
      ensures forall i :: 0 <= i < |transfers| && i != k ==> transfers[i] != transfers[k]
      ensures transfers[k].timeout == dues[k] && Normal(dues[k])
    {
      assert links[k] in links;
    }

    /** On a valid list the function finds the least pending deadline, the order being that of `dues`. */
    lemma {:induction false} ScanOrder()
      requires Valid()
      ensures Timeouts(Items(transfers)) == dues
      ensures IsLeastPending(Items(transfers), LeastPending(Items(transfers)))
    {
      assert Timeouts(Items(transfers)) == dues;
    }

    lemma {:induction false} FoundLeast(r: Option<Timespec>)
      requires Valid() && IsLeastPending(Items(transfers), r)
      ensures r == LeastPending(Items(transfers))
    {
      hide IsList, LeastPending, IsLeastPending;
      ScanOrder();
      assert forall i :: 0 <= i < |transfers| ==> Normal(Items(transfers)[i].timeout);
      LeastPendingIsUnique(Items(transfers), r);
    }

    method FindDeadline() returns (deadline: Option<Timespec>)
      requires Valid()
      ensures deadline == LeastPending(Items(transfers))
    {
      deadline := None;
      var cur := flying.next;
      ghost var k, items := 0, Items(transfers);
      while cur != flying
        invariant k <= |transfers| && cur == NodeOrHead(flying, links, k)
        invariant forall i :: 0 <= i < k ==> !Pending(items[i])
        decreases |transfers| - k
      {
        assert links[k] in links;
        var itransfer := cur.container.value;
        if !IsSet(itransfer.timeout) {
          break;
        }
        if !itransfer.Skip() {
          deadline := Some(itransfer.timeout);
          assert Pending(items[k]);
          break;
        }
        cur := cur.next;
        k := k + 1;
      }
      FoundLeast(deadline);
    }

    /** arm_timer_for_next_timeout: the scan, which stops early, finds the least deadline of the whole list that is
        still waited for. */
    method ArmTimerForNextTimeout() returns (r: int)
      requires Valid()
      modifies `timer
      ensures timer == if usingTimer && r == SUCCESS then LeastPending(Items(transfers)) else old(timer)
    {
      if !usingTimer {
        return SUCCESS;
      }
      var deadline := FindDeadline();
      r := SetTimer(deadline);
    }

    /** The nodes of the list are those of its transfers and no others. */
    lemma {:induction false} NotOnList(t: Transfer)
      requires Valid() && Linked(t) && t !in transfers
      ensures t.list != flying && t.list !in links
    {
    }

    /** Link a transfer in before `at`, the k-th node. */
    method LinkBefore(itransfer: Transfer, at: ListHead<Transfer>, ghost k: nat)
      requires Valid() && Linked(itransfer) && itransfer !in transfers && Normal(itransfer.timeout)
      requires IsInsertionPoint(dues, itransfer.timeout, k) && at == NodeOrHead(flying, links, k)
      modifies `transfers, `links, `dues
      modifies itransfer.list`prev, itransfer.list`next, flying`prev, flying`next, links`prev, links`next
      ensures Valid()
      ensures transfers == old(transfers)[..k] + [itransfer] + old(transfers)[k..]
      ensures links == old(links)[..k] + [itransfer.list] + old(links)[k..]
      ensures dues == old(dues)[..k] + [itransfer.timeout] + old(dues)[k..]
    {
      hide Describe, Sorted, IsList;
      NotOnList(itransfer);
      Start();
      InsertKeepsSorted(dues, itransfer.timeout, k);
      DescribeMore(transfers, links, dues, k, itransfer);
      ghost var links' := links[..k] + [itransfer.list] + links[k..];
      ghost var dues' := dues[..k] + [itransfer.timeout] + dues[k..];
      ghost var transfers' := transfers[..k] + [itransfer] + transfers[k..];
      ListAddTail(itransfer.list, at, flying, links, k);
      links, dues, transfers := links', dues', transfers';
    }

    lemma {:induction false} NoLonger(k: nat)
      requires Valid() && k < |transfers|
      ensures k < |links| && links[k] == transfers[k].list && transfers[k] !in transfers[..k] + transfers[k + 1..]
    {
      Walk(k);
    }

    /** Unlink the k-th transfer. */
    method Unlink(itransfer: Transfer, ghost k: nat)
      requires Valid() && k < |transfers| && transfers[k] == itransfer
      modifies `transfers, `links, `dues, flying`prev, flying`next, links`prev, links`next
      ensures Valid() && itransfer !in transfers
      ensures transfers == old(transfers)[..k] + old(transfers)[k + 1..]
      ensures links == old(links)[..k] + old(links)[k + 1..]
      ensures dues == old(dues)[..k] + old(dues)[k + 1..]
    {
      hide Describe, Sorted, IsList;
      Start();
      RemoveKeepsSorted(dues, k);
      DescribeLess(transfers, links, dues, k);
      NoLonger(k);
      ghost var links' := links[..k] + links[k + 1..];
      ghost var dues' := dues[..k] + dues[k + 1..];
      ghost var transfers' := transfers[..k] + transfers[k + 1..];
      ListDel(itransfer.list, flying, links, k);
      links, dues, transfers := links', dues', transfers';
    }

    /** The search of add_to_flying_list: the node to insert before, and whether the new transfer
        comes first. On an empty list list_add and list_add_tail come to the same. */
    method FindPlace(timeout: Timespec) returns (at: ListHead<Transfer>, first: bool, ghost k: nat)
      requires Valid() && Normal(timeout)
      ensures k == InsertionPoint(dues, timeout) && at == NodeOrHead(flying, links, k)
      ensures IsSet(timeout) ==> (first <==> k == 0)
    {
      at, first, k := flying.next, true, 0;
      EmptyMeansNoNodes(flying, links);
      if ListEmpty(flying) {
        return;
      }
      if !IsSet(timeout) {
        at, k := flying, |transfers|;
      } else {
        while at != flying
          invariant k <= |transfers| && at == NodeOrHead(flying, links, k)
          invariant first <==> k == 0
          invariant forall i :: 0 <= i < k ==> NotAfter(dues[i], timeout)
          decreases |transfers| - k
        {
          assert links[k] in links;
          var cur := at.container.value;
          if !IsSet(cur.timeout) || After(cur.timeout, timeout) {
            break;
          }
          first := false;
          at, k := at.next, k + 1;
        }
      }
      InsertionPointIsUnique(dues, timeout, k);
    }

    /** The first half of add_to_flying_list: give the transfer its deadline and queue it by that. */
    method Enqueue(itransfer: Transfer, timeout: nat, now: Timespec) returns (first: bool, ghost k: nat)
      requires Valid() && Linked(itransfer) && itransfer !in transfers && Normal(now)
      modifies `transfers, `links, `dues, itransfer`timeout
      modifies itransfer.list`prev, itransfer.list`next, flying`prev, flying`next, links`prev, links`next
      ensures Valid()
      ensures IsSet(itransfer.timeout) <==> timeout != 0
      ensures timeout != 0 ==> Nanos(itransfer.timeout) == Nanos(now) + timeout * 1_000_000
      ensures k == InsertionPoint(old(dues), itransfer.timeout)
      ensures transfers == old(transfers)[..k] + [itransfer] + old(transfers)[k..]
      ensures links == old(links)[..k] + [itransfer.list] + old(links)[k..]
      ensures dues == old(dues)[..k] + [itransfer.timeout] + old(dues)[k..]
      ensures IsSet(itransfer.timeout) ==> (first <==> k == 0)
    {
      itransfer.timeout := CalculateTimeout(timeout, now);
      assert Valid();
      var at;
      at, first, k := FindPlace(itransfer.timeout);
      LinkBefore(itransfer, at, k);
    }

    /** add_to_flying_list: a transfer that is now first in line sets the timer; if that fails it does
        not stay on the list. */
    method AddToFlyingList(itransfer: Transfer, timeout: nat, now: Timespec) returns (r: int, ghost k: nat)
      requires Valid() && Linked(itransfer) && itransfer !in transfers && Normal(now)
      modifies `transfers, `links, `dues, `timer, itransfer`timeout
      modifies itransfer.list`prev, itransfer.list`next, flying`prev, flying`next, links`prev, links`next
      ensures Valid()
      ensures IsSet(itransfer.timeout) <==> timeout != 0
      ensures timeout != 0 ==> Nanos(itransfer.timeout) == Nanos(now) + timeout * 1_000_000
      ensures k == InsertionPoint(old(dues), itransfer.timeout)
      ensures transfers == if r == SUCCESS then old(transfers)[..k] + [itransfer] + old(transfers)[k..]
              else old(transfers)
      ensures links == if r == SUCCESS then old(links)[..k] + [itransfer.list] + old(links)[k..] else old(links)
      ensures dues == if r == SUCCESS then old(dues)[..k] + [itransfer.timeout] + old(dues)[k..] else old(dues)
      ensures timer == if usingTimer && r == SUCCESS && IsSet(itransfer.timeout) && k == 0
                       then Some(itransfer.timeout) else old(timer)
    {
      hide *;
      Start();
      var first;
      first, k := Enqueue(itransfer, timeout, now);
      r := SUCCESS;
      if first && usingTimer && IsSet(itransfer.timeout) {
        r := SetTimer(Some(itransfer.timeout));
        if r != SUCCESS {
          Unlink(itransfer, k);
          TakenBack(old(transfers), itransfer, k);
          TakenBack(old(links), itransfer.list, k);
          TakenBack(old(dues), itransfer.timeout, k);
        }
      }
    }

    /** remove_from_flying_list; the timer follows when the first transfer with a deadline leaves. */
    method RemoveFromFlyingList(itransfer: Transfer, ghost k: nat) returns (r: int)
      requires Valid() && k < |transfers| && transfers[k] == itransfer
      modifies `transfers, `links, `dues, `timer, flying`prev, flying`next, links`prev, links`next
      ensures Valid() && itransfer !in transfers
      ensures transfers == old(transfers)[..k] + old(transfers)[k + 1..]
      ensures links == old(links)[..k] + old(links)[k + 1..]
      ensures dues == old(dues)[..k] + old(dues)[k + 1..]
      ensures timer == if usingTimer && r == SUCCESS && IsSet(itransfer.timeout) && k == 0
                       then LeastPending(Items(transfers)) else old(timer)
    {
      assert links[0] in links && links[k] in links;
      var rearm := IsSet(itransfer.timeout) && flying.next.container == Some(itransfer);
      assert rearm <==> IsSet(itransfer.timeout) && k == 0;
      Unlink(itransfer, k);
      r := SUCCESS;
      if rearm {
        r := ArmTimerForNextTimeout();
      }
    }

    /** A submission starts with no state or timeout flag set. */
    method Clear(itransfer: Transfer)
      requires Valid() && !itransfer.inFlight
      modifies itransfer`cancelling, itransfer`disappeared, itransfer`handled, itransfer`osHandles, itransfer`timedOut
      modifies itransfer`cancelAnswers
      ensures Valid() && itransfer.State() == CLEAR
      ensures !itransfer.cancelling && !itransfer.handled && !itransfer.timedOut
    {
      itransfer.cancelling, itransfer.disappeared := false, false;
      itransfer.handled, itransfer.osHandles, itransfer.timedOut := false, false, false;
      itransfer.cancelAnswers := [];
    }

    /** libusb_submit_transfer for a transfer that is not in flight, when the backend answers `refusal`: the list is
        left as it was. */
    method SubmitRefused(itransfer: Transfer, timeout: nat, now: Timespec, refusal: int) returns (r: int)
      requires Valid() && Linked(itransfer) && itransfer !in transfers && !itransfer.inFlight && Normal(now)
      requires refusal != SUCCESS
      modifies `transfers, `links, `dues, `timer, itransfer`timeout, itransfer`cancelling, itransfer`disappeared
      modifies itransfer`handled, itransfer`osHandles, itransfer`timedOut, itransfer`cancelAnswers
      modifies itransfer.list`prev, itransfer.list`next, flying`prev, flying`next, links`prev, links`next
      ensures Valid() && transfers == old(transfers) && links == old(links) && dues == old(dues) && r != SUCCESS
      ensures !itransfer.cancelling && !itransfer.handled && !itransfer.timedOut
    {
      hide *;
      Start();
      Clear(itransfer);
      ghost var k;
      r, k := AddToFlyingList(itransfer, timeout, now);
      if r == SUCCESS {
        r := refusal;
        var ignored := RemoveFromFlyingList(itransfer, k);
        TakenBack(old(transfers), itransfer, k);
        TakenBack(old(links), itransfer.list, k);
        TakenBack(old(dues), itransfer.timeout, k);
      }
    }

    /** The transfers, which were in the states `before`, have had the timeouts at `now` handled. */
    ghost predicate Handled(before: seq<Flags>, now: Timespec)
      reads `transfers, `dues, transfers
    {
      && |transfers| == |dues| == |before|
      && forall i :: 0 <= i < |dues| ==> AfterTimeouts(dues[i], before[i], now, transfers[i].State())
    }

    /** handle_timeouts_locked: the scan stops early, yet every expired transfer is dealt with and no
        other is touched. */
    method HandleTimeoutsLocked(now: Timespec)
      requires Valid() && Normal(now)
      modifies transfers`handled, transfers`timedOut, transfers`cancelling, transfers`disappeared
      modifies transfers`cancelAnswers
      ensures Handled(old(States(transfers)), now)
    {
      hide IsList, Describe;
      Start();
      ghost var before := States(transfers);
      var cur := flying.next;
      ghost var k := 0;
      while cur != flying
        invariant k <= |transfers| && cur == NodeOrHead(flying, links, k)
        invariant forall i :: 0 <= i < k ==> AfterTimeouts(dues[i], before[i], now, transfers[i].State())
        invariant forall i :: k <= i < |transfers| ==> transfers[i].State() == before[i]
        decreases |transfers| - k
      {
        Walk(k);
        var done := cur.container.value.CheckTimeout(now);
        if done {
          assert forall i :: k < i < |dues| ==> NotAfter(dues[k], dues[i]);
          assert forall i :: k < i < |dues| ==> !IsSet(dues[i]) || After(dues[i], now);
          return;
        }
        cur, k := cur.next, k + 1;
      }
      if k < |transfers| { Walk(k); }
    }

    /** Once the timeouts at `now` were handled, what is still waited for is due later. */
    lemma {:induction false} LeftIsLater(before: seq<Flags>, now: Timespec)
      requires Valid() && Handled(before, now)
      ensures var next := LeastPending(Items(transfers)); next.Some? ==> After(next.value, now)
    {
      hide IsList, Sorted, LeastPending;
      ScanOrder();
      var next := LeastPending(Items(transfers));
      if next.Some? {
        var i :| 0 <= i < |transfers| && Pending(Items(transfers)[i]) && Items(transfers)[i].timeout == next.value;
        assert transfers[i].timeout == dues[i] && AfterTimeouts(dues[i], before[i], now, transfers[i].State());
      }
    }

    /** handle_timer_trigger: the timeouts are handled, and the timer is set for the least deadline then still waited
        for, which has not come yet. */
    method HandleTimerTrigger(now: Timespec) returns (r: int)
      requires Valid() && Normal(now)
      modifies `timer
      modifies transfers`handled, transfers`timedOut, transfers`cancelling, transfers`disappeared
      modifies transfers`cancelAnswers
      ensures Valid() && Handled(old(States(transfers)), now)
      ensures timer == if usingTimer && r == SUCCESS then LeastPending(Items(transfers)) else old(timer)
      ensures usingTimer && r == SUCCESS && timer.Some? ==> After(timer.value, now)
    {
      hide *;
      ghost var before := States(transfers);
      HandleTimeoutsLocked(now);
      LeftIsLater(before, now);
      r := ArmTimerForNextTimeout();
    }

    /** libusb_get_next_timeout: how long until the next transfer times out, an all-zero value if that
        time has come; 0 in `r` if the timer takes care of it or nothing is pending. */
    method GetNextTimeout(now: Timespec) returns (r: int, tv: Timeval)
      requires Valid() && Normal(now)
      ensures var next := LeastPending(Items(transfers));
        && IsLeastPending(Items(transfers), next)
        && r == (if usingTimer || next == None then 0 else 1)
        && (r == 1 ==> 0 <= tv.usec < 1_000_000)
        && (r == 1 && !After(next.value, now) ==> tv == Timeval(0, 0))
        && (r == 1 && After(next.value, now) ==>
              0 <= Nanos(next.value) - Nanos(now) - (tv.sec * 1_000_000 + tv.usec) * 1000 < 1000)
    {
      hide IsList, Describe;
      ScanOrder();
      Start();
      tv := Timeval(0, 0);
      if usingTimer {
        return 0, tv;
      }
      ghost var items := Items(transfers);
      var next := CLEARED;
      var cur := flying.next;
      ghost var k := 0;
      while cur != flying
        invariant k <= |transfers| && cur == NodeOrHead(flying, links, k)
        invariant forall i :: 0 <= i < k ==> items[i].skip
        invariant next == CLEARED && items == Items(transfers)
        decreases |transfers| - k
      {
        Walk(k);
        var itransfer := cur.container.value;
        if !itransfer.Skip() {
          next := itransfer.timeout;
          assert IsSet(next) ==> Pending(items[k]);
          break;
        }
        cur, k := cur.next, k + 1;
      }
      if k < |transfers| { Walk(k); }
      StopsAtLeast(items, k, next);
      if !IsSet(next) {
        return 0, tv;
      }
      r := 1;
      if After(next, now) {
        var left := Subtract(next, now);
        tv := Timeval(left.sec, left.nsec / 1000);
      }
    }
  }
}
