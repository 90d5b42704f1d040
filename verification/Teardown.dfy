/** What becomes of the transfers of a device that goes away: usbi_handle_disconnect completes those in
    flight, libusb_close drops whatever is still listed for the handle. */
module Teardown {
  import opened IntrusiveList
  import opened Sequences
  import opened Deadlines
  import opened TransferState
  import opened FlyingList

  ghost predicate InFlightOn(t: Transfer, devHandle: nat)
    reads t`devHandle, t`inFlight
  {
    t.devHandle == Some(devHandle) && t.inFlight
  }

  /** Any of the transfers listed, or none. */
  method SomeListed(ctx: Context) returns (found: Transfer?)
    requires ctx.Valid()
    ensures found != null ==> found in ctx.transfers
  {
    hide IsList, Describe, Sorted;
    ctx.Start();
    var cur := ctx.flying.next;
    ghost var k := 0;
    while cur != ctx.flying
      invariant k <= |ctx.transfers| && cur == NodeOrHead(ctx.flying, ctx.links, k)
      decreases |ctx.transfers| - k
    {
      ctx.Walk(k);
      if * {
        return cur.container.value;
      }
      cur, k := cur.next, k + 1;
    }
    found := null;
  }

  /** libusb_cancel_transfer for a transfer that is listed. */
  method CancelListed(ctx: Context, itransfer: Transfer)
    requires ctx.Valid() && itransfer in ctx.transfers
    modifies itransfer`cancelling, itransfer`disappeared, itransfer`cancelAnswers
    ensures ctx.Valid()
  {
    hide IsList, Describe, Sorted;
    var r;
    ghost var answer;
    r, answer := itransfer.CancelTransfer();
  }

  /** One thing the user's completion callback may do: cancel a transfer, or submit the completed one again, which the
      backend refuses since the device is gone. */
  method CallbackStep(ctx: Context, itransfer: Transfer, timeout: nat, now: Timespec, refusal: int)
    requires ctx.Valid() && Linked(itransfer) && itransfer !in ctx.transfers && !itransfer.inFlight
    requires Normal(now) && refusal != SUCCESS
    modifies ctx`transfers, ctx`links, ctx`dues, ctx`timer
    modifies itransfer`timeout, itransfer`cancelling, itransfer`disappeared
    modifies itransfer`handled, itransfer`osHandles, itransfer`timedOut, itransfer`cancelAnswers
    modifies itransfer.list`prev, itransfer.list`next, ctx.flying`prev, ctx.flying`next, ctx.links`prev, ctx.links`next
    modifies ctx.transfers`cancelling, ctx.transfers`disappeared, ctx.transfers`cancelAnswers
    ensures ctx.Valid() && ctx.transfers == old(ctx.transfers) && ctx.links == old(ctx.links)
    ensures ctx.dues == old(ctx.dues)
  {
    hide *;
    var cancelled := SomeListed(ctx);
    if cancelled != null {
      CancelListed(ctx, cancelled);
    } else {
      var r := ctx.SubmitRefused(itransfer, timeout, now, refusal);
    }
  }

  /** The user's completion callback, which does any number of such things. */
  method Callback(ctx: Context, itransfer: Transfer, status: Status)
    requires ctx.Valid() && Linked(itransfer) && itransfer !in ctx.transfers && !itransfer.inFlight
    modifies ctx`reported, ctx`transfers, ctx`links, ctx`dues, ctx`timer
    modifies itransfer`timeout, itransfer`cancelling, itransfer`disappeared
    modifies itransfer`handled, itransfer`osHandles, itransfer`timedOut, itransfer`cancelAnswers
    modifies itransfer.list`prev, itransfer.list`next, ctx.flying`prev, ctx.flying`next, ctx.links`prev, ctx.links`next
    modifies ctx.transfers`cancelling, ctx.transfers`disappeared, ctx.transfers`cancelAnswers
    ensures ctx.Valid() && ctx.transfers == old(ctx.transfers) && ctx.links == old(ctx.links)
    ensures ctx.dues == old(ctx.dues)
    ensures ctx.reported == old(ctx.reported) + [(itransfer, status)]
  {
    hide *;
    ctx.reported := ctx.reported + [(itransfer, status)];
    assert ctx.Valid();
    var rounds: int := *;
    while rounds > 0
      invariant ctx.Valid() && ctx.transfers == old(ctx.transfers) && ctx.links == old(ctx.links)
      invariant ctx.dues == old(ctx.dues)
      invariant ctx.reported == old(ctx.reported) + [(itransfer, status)]
    {
      var timeout: nat, now: Timespec, refusal: int := *, *, *;
      if Normal(now) && refusal != SUCCESS {
        CallbackStep(ctx, itransfer, timeout, now, refusal);
      }
      rounds := rounds - 1;
    }
  }

  lemma {:induction false} OnList(ctx: Context, k: nat)
    requires ctx.Valid() && k < |ctx.transfers|
    ensures k < |ctx.links| && ctx.links[k] == ctx.transfers[k].list && Linked(ctx.transfers[k])
  {
  }

  lemma {:induction false} TakeOutMembers<T>(s: seq<T>, k: nat)
    requires k < |s|
    ensures forall x :: x in s[..k] + s[k + 1..] ==> x in s
  {
  }

  /** The IN_FLIGHT flag of a transfer off the list is cleared. */
  method LandInFlight(ctx: Context, itransfer: Transfer)
    requires ctx.Valid()
    modifies itransfer`inFlight
    ensures ctx.Valid() && !itransfer.inFlight
  {
    hide IsList, Describe, Sorted;
    itransfer.inFlight := false;
  }

  /** usbi_handle_transfer_completion */
  method HandleTransferCompletion(ctx: Context, itransfer: Transfer, status: Status, ghost k: nat)
    requires ctx.Valid() && k < |ctx.transfers| && ctx.transfers[k] == itransfer
    modifies ctx`transfers, ctx`links, ctx`dues, ctx`timer, ctx`reported, itransfer`inFlight
    modifies itransfer`timeout, itransfer`cancelling, itransfer`disappeared
    modifies itransfer`handled, itransfer`osHandles, itransfer`timedOut, itransfer`cancelAnswers
    modifies ctx.flying`prev, ctx.flying`next, ctx.links`prev, ctx.links`next
    modifies ctx.transfers`cancelling, ctx.transfers`disappeared, ctx.transfers`cancelAnswers
    ensures ctx.Valid() && !itransfer.inFlight && itransfer !in ctx.transfers
    ensures ctx.transfers == old(ctx.transfers)[..k] + old(ctx.transfers)[k + 1..]
    ensures ctx.links == old(ctx.links)[..k] + old(ctx.links)[k + 1..]
    ensures ctx.reported == old(ctx.reported) + [(itransfer, status)]
  {
    hide *;
    OnList(ctx, k);
    var r := ctx.RemoveFromFlyingList(itransfer, k);
    TakeOutMembers(old(ctx.transfers), k);
    TakeOutMembers(old(ctx.links), k);
    LandInFlight(ctx, itransfer);
    Callback(ctx, itransfer, status);
  }

  /** The scan of usbi_handle_disconnect: the first transfer in flight on the handle. One that is listed
      but not in flight failed to submit and is left for its submitter to remove. */
  method FindInFlight(ctx: Context, devHandle: nat) returns (found: Transfer?, ghost k: nat)
    requires ctx.Valid()
    ensures k <= |ctx.transfers| && forall i :: 0 <= i < k ==> !InFlightOn(ctx.transfers[i], devHandle)
    ensures if found == null then k == |ctx.transfers|
            else k < |ctx.transfers| && ctx.transfers[k] == found && InFlightOn(found, devHandle)
  {
    hide IsList, Describe, Sorted;
    ctx.Start();
    found, k := null, 0;
    var cur := ctx.flying.next;
    while cur != ctx.flying
      invariant k <= |ctx.transfers| && cur == NodeOrHead(ctx.flying, ctx.links, k)
      invariant forall i :: 0 <= i < k ==> !InFlightOn(ctx.transfers[i], devHandle)
      decreases |ctx.transfers| - k
    {
      ctx.Walk(k);
      var itransfer := cur.container.value;
      if itransfer.devHandle == Some(devHandle) && itransfer.inFlight {
        return itransfer, k;
      }
      cur, k := cur.next, k + 1;
    }
    if k < |ctx.transfers| { ctx.Walk(k); }
  }

  ghost function NoDevice(ts: seq<Transfer>): (rs: seq<(Transfer, Status)>)
    ensures |rs| == |ts| && forall i :: 0 <= i < |ts| ==> rs[i] == (ts[i], NO_DEVICE)
  {
    seq(|ts|, i requires 0 <= i < |ts| => (ts[i], NO_DEVICE))
  }

  /** One round of usbi_handle_disconnect, for the first of the transfers to go. */
  method CompleteFirst(ctx: Context, itransfer: Transfer, ghost k: nat, ghost gone: set<Transfer>)
    requires ctx.Valid() && k < |ctx.transfers| && ctx.transfers[k] == itransfer
    requires itransfer in gone && forall i :: 0 <= i < k ==> ctx.transfers[i] !in gone
    modifies ctx`transfers, ctx`links, ctx`dues, ctx`timer, ctx`reported, itransfer`inFlight
    modifies itransfer`timeout, itransfer`cancelling, itransfer`disappeared
    modifies itransfer`handled, itransfer`osHandles, itransfer`timedOut, itransfer`cancelAnswers
    modifies ctx.flying`prev, ctx.flying`next, ctx.links`prev, ctx.links`next
    modifies ctx.transfers`cancelling, ctx.transfers`disappeared, ctx.transfers`cancelAnswers
    ensures ctx.Valid() && !itransfer.inFlight && |ctx.transfers| < old(|ctx.transfers|)
    ensures forall t :: t in ctx.transfers ==> t in old(ctx.transfers) && t != itransfer
    ensures forall t :: t in old(ctx.transfers) && t != itransfer ==> t in ctx.transfers
    ensures forall i :: 0 <= i < |ctx.links| ==> ctx.links[i] in old(ctx.links)
    ensures Without(ctx.transfers, gone) == Without(old(ctx.transfers), gone)
    ensures [itransfer] + Only(ctx.transfers, gone) == Only(old(ctx.transfers), gone)
    ensures ctx.reported == old(ctx.reported) + [(itransfer, NO_DEVICE)]
  {
    hide IsList, Describe, Sorted, Only, Without;
    ctx.Start();
    TakeOutFirst(ctx.transfers, gone, k);
    HandleTransferCompletion(ctx, itransfer, NO_DEVICE, k);
    assert forall i :: 0 <= i < |ctx.links| ==>
           ctx.links[i] == if i < k then old(ctx.links)[i] else old(ctx.links)[i + 1];
  }

  /** One round: the first transfer in flight on the handle is completed, if there is one. */
  method DisconnectOne(ctx: Context, devHandle: nat, ghost gone: set<Transfer>, ghost ts: set<Transfer>,
        ghost ls: set<ListHead<Transfer>>) returns (toCancel: Transfer?)
    requires ctx.Valid() && (forall t :: t in ctx.transfers ==> t in ts) && forall l :: l in ctx.links ==> l in ls
    requires forall t :: t in ctx.transfers ==> (t in gone <==> InFlightOn(t, devHandle))
    modifies ctx`transfers, ctx`links, ctx`dues, ctx`timer, ctx`reported, gone`inFlight
    modifies gone`timeout, gone`cancelling, gone`disappeared, gone`handled, gone`osHandles, gone`timedOut
    modifies gone`cancelAnswers
    modifies ctx.flying`prev, ctx.flying`next, ls`prev, ls`next, ts`cancelling, ts`disappeared, ts`cancelAnswers
    ensures ctx.Valid()
    ensures toCancel == null ==>
      ctx.transfers == old(ctx.transfers) == Without(ctx.transfers, gone) && Only(ctx.transfers, gone)
        == [] && ctx.reported == old(ctx.reported)
    ensures toCancel == null ==> forall t :: t in ctx.transfers ==> t !in gone
    ensures toCancel != null ==> toCancel in gone && !toCancel.inFlight && |ctx.transfers| < old(|ctx.transfers|)
    ensures forall t :: t in ctx.transfers ==> t in old(ctx.transfers) && t != toCancel
    ensures forall t :: t in old(ctx.transfers) && t != toCancel ==> t in ctx.transfers
    ensures forall t :: t in gone && t != toCancel ==> t.inFlight == old(t.inFlight)
    ensures forall l :: l in ctx.links ==> l in ls
    ensures Without(ctx.transfers, gone) == Without(old(ctx.transfers), gone)
    ensures toCancel != null ==> [toCancel] + Only(ctx.transfers, gone) == Only(old(ctx.transfers), gone)
    ensures toCancel != null ==> ctx.reported == old(ctx.reported) + [(toCancel, NO_DEVICE)]
  {
    hide IsList, Describe, Sorted, Only, Without;
    ghost var k;
    toCancel, k := FindInFlight(ctx, devHandle);
    if toCancel == null {
      NoneIsAllWithout(ctx.transfers, gone);
    } else {
      assert toCancel in ctx.transfers;
      CompleteFirst(ctx, toCancel, k, gone);
    }
  }

  /** usbi_handle_disconnect: every transfer in flight on the handle is completed with NO_DEVICE, once
      and in list order; all others stay listed, in order. */
  method HandleDisconnect(ctx: Context, devHandle: nat, ghost gone: set<Transfer>)
    requires ctx.Valid() && gone == set t | t in ctx.transfers && InFlightOn(t, devHandle)
    modifies ctx`transfers, ctx`links, ctx`dues, ctx`timer, ctx`reported, gone`inFlight
    modifies gone`timeout, gone`cancelling, gone`disappeared, gone`handled, gone`osHandles, gone`timedOut
    modifies gone`cancelAnswers
    modifies ctx.flying`prev, ctx.flying`next, ctx.links`prev, ctx.links`next
    modifies ctx.transfers`cancelling, ctx.transfers`disappeared, ctx.transfers`cancelAnswers
    ensures ctx.Valid()
    ensures ctx.transfers == Without(old(ctx.transfers), gone)
    ensures ctx.reported == old(ctx.reported) + NoDevice(Only(old(ctx.transfers), gone))
    ensures forall t :: t in gone ==> !t.inFlight
  {
    hide IsList, Describe, Sorted, Only, Without, Context.Valid;
    ghost var all := ctx.transfers;
    ghost var ts, ls := set t | t in ctx.transfers, set l | l in ctx.links;
    ghost var done: seq<Transfer> := [];
    while true
      invariant ctx.Valid()
      invariant forall l :: l in ctx.links ==> l in ls
      invariant forall t :: t in ctx.transfers ==> t in all && t in ts && (t in gone <==> InFlightOn(t, devHandle))
      invariant forall t :: t in gone && t !in ctx.transfers ==> !t.inFlight
      invariant Without(ctx.transfers, gone) == Without(all, gone)
      invariant done + Only(ctx.transfers, gone) == Only(all, gone)
      invariant ctx.reported == old(ctx.reported) + NoDevice(done)
      decreases |ctx.transfers|
    {
      var toCancel := DisconnectOne(ctx, devHandle, gone, ts, ls);
      if toCancel == null {
        break;
      }
      done := done + [toCancel];
    }
  }

  /** The walk of do_close is at position k of the list that is left and j of the list there was. */
  ghost predicate Midway(ts: seq<Transfer>, all: seq<Transfer>, j: nat, k: nat, dropped: set<Transfer>) {
    k <= |ts| && j <= |all| && ts[..k] == Without(all[..j], dropped) && ts[k..] == all[j..]
  }

  lemma {:induction false} MidwayStart(all: seq<Transfer>, dropped: set<Transfer>)
    ensures Midway(all, all, 0, 0, dropped)
  {
  }

  lemma {:induction false} MidwayEnd(ts: seq<Transfer>, all: seq<Transfer>, j: nat, dropped: set<Transfer>)
    requires Midway(ts, all, j, |ts|, dropped)
    ensures ts == Without(all, dropped) && j == |all|
  {
    assert |all[j..]| == 0 && all[..|all|] == all && ts[..|ts|] == ts;
  }

  lemma {:induction false} MidwayBounds(ts: seq<Transfer>, all: seq<Transfer>, j: nat, k: nat, dropped: set<Transfer>)
    requires Midway(ts, all, j, k, dropped)
    ensures k <= |ts| && j <= |all|
  {
  }

  /** One step of the walk. */
  lemma {:induction false} PassOn(ts: seq<Transfer>, all: seq<Transfer>, j: nat, k: nat, dropped: set<Transfer>)
    requires k < |ts| && Midway(ts, all, j, k, dropped)
    ensures j < |all| && ts[k] == all[j]
    ensures if all[j] in dropped then Midway(ts[..k] + ts[k + 1..], all, j + 1, k, dropped)
            else Midway(ts, all, j + 1, k + 1, dropped)
  {
    assert |ts[k..]| == |all[j..]| && ts[k..][0] == all[j..][0];
    assert ts[k..][1..] == ts[k + 1..] && all[j..][1..] == all[j + 1..];
    assert all[..j + 1] == all[..j] + [all[j]];
    WithoutAppend(all[..j], all[j], dropped);
    assert ts[..k] + [] == ts[..k];
  }

  /** The transfer is no longer on a handle. */
  method LetGo(ctx: Context, itransfer: Transfer)
    requires ctx.Valid()
    modifies itransfer`devHandle
    ensures ctx.Valid() && itransfer.devHandle == None
  {
    hide IsList, Describe, Sorted;
    itransfer.devHandle := None;
  }

  /** A listed transfer is dropped. */
  method DropOne(ctx: Context, itransfer: Transfer, ghost k: nat)
    requires ctx.Valid() && k < |ctx.transfers| && ctx.transfers[k] == itransfer
    modifies ctx`transfers, ctx`links, ctx`dues, itransfer`devHandle
    modifies ctx.flying`prev, ctx.flying`next, ctx.links`prev, ctx.links`next
    ensures ctx.Valid() && itransfer.devHandle == None
    ensures ctx.transfers == old(ctx.transfers)[..k] + old(ctx.transfers)[k + 1..]
    ensures ctx.links == old(ctx.links)[..k] + old(ctx.links)[k + 1..]
    ensures forall i :: 0 <= i < |ctx.links| ==> ctx.links[i] in old(ctx.links)
  {
    hide *;
    ctx.Start();
    ctx.Unlink(itransfer, k);
    TakeOutMembers(old(ctx.links), k);
    LetGo(ctx, itransfer);
  }

  /** The first half of do_close: whatever is listed for the handle is dropped, in flight or not, and
      the rest stay in order. The iteration goes on from a next pointer saved before the removal. */
  method DropTransfers(ctx: Context, devHandle: nat, ghost dropped: set<Transfer>)
    requires ctx.Valid() && dropped == set t | t in ctx.transfers && t.devHandle == Some(devHandle)
    modifies ctx`transfers, ctx`links, ctx`dues, dropped`devHandle
    modifies ctx.flying`prev, ctx.flying`next, ctx.links`prev, ctx.links`next
    ensures ctx.Valid()
    ensures ctx.transfers == Without(old(ctx.transfers), dropped)
    ensures forall t :: t in dropped ==> t.devHandle == None
  {
    hide IsList, Describe, Sorted, Without, Midway, Context.Valid;
    ghost var all, j, k := ctx.transfers, 0, 0;
    ctx.Start();
    MidwayStart(all, dropped);
    var cur := ctx.flying.next;
    while cur != ctx.flying
      invariant ctx.Valid() && Midway(ctx.transfers, all, j, k, dropped) && j <= |all|
      invariant cur == NodeOrHead(ctx.flying, ctx.links, k)
      invariant forall i :: 0 <= i < |ctx.links| ==> ctx.links[i] in old(ctx.links)
      invariant forall i :: j <= i < |all| ==> all[i].devHandle == old(all[i].devHandle)
      invariant forall i :: 0 <= i < j ==> all[i] in dropped ==> all[i].devHandle == None
      decreases |all| - j
    {
      ctx.Start();
      MidwayBounds(ctx.transfers, all, j, k, dropped);
      ctx.Walk(k);
      var itransfer, tmp := cur.container.value, cur.next;
      PassOn(ctx.transfers, all, j, k, dropped);
      if itransfer.devHandle == Some(devHandle) {
        assert itransfer in dropped;
        DropOne(ctx, itransfer, k);
      } else {
        k := k + 1;
      }
      cur, j := tmp, j + 1;
    }
    ctx.Start();
    MidwayBounds(ctx.transfers, all, j, k, dropped);
    if k < |ctx.transfers| { ctx.Walk(k); }
    MidwayEnd(ctx.transfers, all, j, dropped);
  }
}
