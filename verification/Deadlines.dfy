/** Transfer deadlines: the TIMESPEC_* macros of libusbi.h, the deadline computation of io.c, and what
    it means for a list of deadlines to be kept in order. */
module Deadlines {
  import opened IntrusiveList

  const NSEC_PER_SEC := 1_000_000_000

  datatype Timespec = Timespec(sec: int, nsec: int)

  datatype Timeval = Timeval(sec: int, usec: int)

  const CLEARED := Timespec(0, 0)

  predicate IsSet(t: Timespec) {
    t.sec != 0 || t.nsec != 0
  }

  /** The range clock_gettime delivers and calculate_timeout keeps. */
  predicate Normal(t: Timespec) {
    t.sec >= 0 && 0 <= t.nsec < NSEC_PER_SEC
  }

  /** TIMESPEC_CMP(a, b, >) */
  predicate After(a: Timespec, b: Timespec) {
    if a.sec == b.sec then a.nsec > b.nsec else a.sec > b.sec
  }

  function Nanos(t: Timespec): int {
    t.sec * NSEC_PER_SEC + t.nsec
  }

  lemma {:induction false} AfterMeansLater(a: Timespec, b: Timespec)
    requires Normal(a) && Normal(b)
    ensures After(a, b) <==> Nanos(a) > Nanos(b)
    ensures a == b <==> Nanos(a) == Nanos(b)
  {
    if a.sec < b.sec {
      assert (a.sec + 1) * NSEC_PER_SEC <= b.sec * NSEC_PER_SEC;
    } else if b.sec < a.sec {
      assert (b.sec + 1) * NSEC_PER_SEC <= a.sec * NSEC_PER_SEC;
    }
  }

  /** TIMESPEC_SUB */
  method Subtract(a: Timespec, b: Timespec) returns (r: Timespec)
    requires Normal(a) && Normal(b)
    ensures Nanos(r) == Nanos(a) - Nanos(b) && 0 <= r.nsec < NSEC_PER_SEC
    ensures After(a, b) ==> Normal(r) && IsSet(r)
  {
    var sec, nsec := a.sec - b.sec, a.nsec - b.nsec;
    if nsec < 0 {
      sec := sec - 1;
      nsec := nsec + NSEC_PER_SEC;
    }
    r := Timespec(sec, nsec);
  }

  /** calculate_timeout; `timeout` is the transfer's limit in milliseconds, 0 meaning none. */
  method CalculateTimeout(timeout: nat, now: Timespec) returns (t: Timespec)
    requires Normal(now)
    ensures Normal(t) && (IsSet(t) <==> timeout != 0)
    ensures timeout != 0 ==> Nanos(t) == Nanos(now) + timeout * 1_000_000
  {
    if timeout == 0 {
      return CLEARED;
    }
    var sec := now.sec + timeout / 1000;
    var nsec := now.nsec + (timeout % 1000) * 1_000_000;
    if nsec >= NSEC_PER_SEC {
      sec := sec + 1;
      nsec := nsec - NSEC_PER_SEC;
    }
    t := Timespec(sec, nsec);
  }

  /** The order of the flying list: a deadline that is not set never comes, so it is last. */
  predicate NotAfter(a: Timespec, b: Timespec) {
    !IsSet(b) || (IsSet(a) && !After(a, b))
  }

  ghost predicate Sorted(ds: seq<Timespec>) {
    forall i, j :: 0 <= i < j < |ds| ==> NotAfter(ds[i], ds[j])
  }

  /** The one place where `d` can join the queue: behind everything due no later, ahead of the rest. */
  ghost predicate IsInsertionPoint(ds: seq<Timespec>, d: Timespec, k: nat) {
    && k <= |ds|
    && (forall i :: 0 <= i < k ==> NotAfter(ds[i], d))
    && (forall i :: k <= i < |ds| ==> !NotAfter(ds[i], d))
  }

  function InsertionPoint(ds: seq<Timespec>, d: Timespec): (k: nat)
    ensures k <= |ds|
    ensures Sorted(ds) ==> IsInsertionPoint(ds, d, k)
  {
    if ds == [] || !NotAfter(ds[0], d) then 0 else 1 + InsertionPoint(ds[1..], d)
  }

  lemma {:induction false} InsertionPointIsUnique(ds: seq<Timespec>, d: Timespec, k: nat)
    requires Sorted(ds) && IsInsertionPoint(ds, d, k)
    ensures k == InsertionPoint(ds, d)
  {
    var j := InsertionPoint(ds, d);
    assert j < |ds| ==> !NotAfter(ds[j], d);
    assert k < |ds| ==> !NotAfter(ds[k], d);
  }

  lemma {:induction false} InsertKeepsSorted(ds: seq<Timespec>, d: Timespec, k: nat)
    requires Sorted(ds) && IsInsertionPoint(ds, d, k)
    ensures Sorted(ds[..k] + [d] + ds[k..])
  {
    var ds' := ds[..k] + [d] + ds[k..];
    forall i, j | 0 <= i < j < |ds'|
      ensures NotAfter(ds'[i], ds'[j])
    {
      if i == k {
        assert ds'[j] == ds[j - 1];
      } else if j == k {
        assert ds'[i] == ds[i];
      }
    }
  }

  lemma {:induction false} RemoveKeepsSorted(ds: seq<Timespec>, k: nat)
    requires Sorted(ds) && k < |ds|
    ensures Sorted(ds[..k] + ds[k + 1..])
  {
  }

  /** What a scan of the flying list looks at: a deadline, and whether it needs no more attention
      because it has been handled or the operating system handles it. */
  datatype Item = Item(timeout: Timespec, skip: bool)

  predicate Pending(it: Item) {
    IsSet(it.timeout) && !it.skip
  }

  /** `r` is the least pending deadline of the whole list, None if there is none. */
  ghost predicate IsLeastPending(items: seq<Item>, r: Option<Timespec>) {
    match r
    case None => forall i :: 0 <= i < |items| ==> !Pending(items[i])
    case Some(d) =>
      && (exists i :: 0 <= i < |items| && Pending(items[i]) && items[i].timeout == d)
      && (forall i :: 0 <= i < |items| && Pending(items[i]) ==> !After(d, items[i].timeout))
  }

  function Timeouts(items: seq<Item>): (ds: seq<Timespec>)
    ensures |ds| == |items| && forall i :: 0 <= i < |ds| ==> ds[i] == items[i].timeout
  {
    seq(|items|, i requires 0 <= i < |items| => items[i].timeout)
  }

  function LeastPending(items: seq<Item>): (r: Option<Timespec>)
    ensures Sorted(Timeouts(items)) ==> IsLeastPending(items, r)
  {
    if items == [] then None
    else if Pending(items[0]) then Some(items[0].timeout)
    else
      assert Sorted(Timeouts(items)) ==> Sorted(Timeouts(items[1..])) by {
        assert Timeouts(items)[1..] == Timeouts(items[1..]);
      }
      LeastPending(items[1..])
  }

  /** There is only one least pending deadline. */
  lemma {:induction false} LeastPendingIsUnique(items: seq<Item>, r: Option<Timespec>)
    requires Sorted(Timeouts(items)) && IsLeastPending(items, r)
    requires forall i :: 0 <= i < |items| ==> Normal(items[i].timeout)
    ensures r == LeastPending(items)
  {
    var s := LeastPending(items);
    if r.Some? && s.Some? {
      AfterMeansLater(r.value, s.value);
      AfterMeansLater(s.value, r.value);
    }
  }

  /** A scan that passes over what needs no attention may stop at the first item that does. */
  lemma {:induction false} StopsAtLeast(items: seq<Item>, k: nat, found: Timespec)
    requires Sorted(Timeouts(items)) && k <= |items|
    requires forall i :: 0 <= i < k ==> items[i].skip
    requires k < |items| ==> !items[k].skip
    requires found == if k < |items| then items[k].timeout else CLEARED
    ensures LeastPending(items) == if IsSet(found) then Some(found) else None
  {
    if k == 0 {
      if items != [] && !IsSet(found) {
        assert forall i :: 0 < i < |items| ==> NotAfter(Timeouts(items)[0], Timeouts(items)[i]);
      }
    } else {
      assert Timeouts(items)[1..] == Timeouts(items[1..]);
      StopsAtLeast(items[1..], k - 1, found);
    }
  }

  lemma {:induction false} LeastOfFirst(it: Item, rest: seq<Item>)
    ensures LeastPending([it] + rest) == if Pending(it) then Some(it.timeout) else LeastPending(rest)
  {
    assert ([it] + rest)[1..] == rest;
  }

  lemma {:induction false} InsertedFirst(items: seq<Item>, due: Timespec)
    requires Sorted(Timeouts(items)) && InsertionPoint(Timeouts(items), due) == 0 && IsSet(due)
    requires LeastPending(items).Some?
    ensures After(LeastPending(items).value, due)
  {
    assert IsInsertionPoint(Timeouts(items), due, 0);
    var i :| 0 <= i < |items| && Pending(items[i]) && items[i].timeout == LeastPending(items).value;
    assert !NotAfter(Timeouts(items)[i], due);
  }

  /** What a new item does to the least pending deadline. */
  lemma {:induction false} LeastAfterInsert(items: seq<Item>, due: Timespec)
    requires Sorted(Timeouts(items))
    ensures var k := InsertionPoint(Timeouts(items), due);
      var least := LeastPending(items);
      LeastPending(items[..k] + [Item(due, false)] + items[k..])
      == (if !IsSet(due) || (least.Some? && !After(least.value, due)) then least else Some(due))
      && (k == 0 && IsSet(due) && least.Some? ==> After(least.value, due))
  {
    var ds := Timeouts(items);
    var k := InsertionPoint(ds, due);
    var items' := items[..k] + [Item(due, false)] + items[k..];
    if k == 0 {
      assert items' == [Item(due, false)] + items;
      LeastOfFirst(Item(due, false), items);
      if IsSet(due) && LeastPending(items).Some? {
        InsertedFirst(items, due);
      }
    } else {
      assert ds[1..] == Timeouts(items[1..]) && k == 1 + InsertionPoint(ds[1..], due);
      assert items' == [items[0]] + (items[1..][..k - 1] + [Item(due, false)] + items[1..][k - 1..]);
      assert items == [items[0]] + items[1..] && NotAfter(items[0].timeout, due);
      hide InsertionPoint, LeastPending, Timeouts;
      LeastOfFirst(items[0], items[1..]);
      LeastOfFirst(items[0], items[1..][..k - 1] + [Item(due, false)] + items[1..][k - 1..]);
      LeastAfterInsert(items[1..], due);
    }
  }
}
