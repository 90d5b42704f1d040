/** The operations that take and drop references to devices. */
module RefCounts {
  import opened IntrusiveList
  import opened References
  import opened Sequences
  import opened TransferState

  predicate FirstWanted(devs: seq<Device>, wanted: Device -> bool, i: int) {
    0 <= i < |devs| && wanted(devs[i]) && forall j :: 0 <= j < i ==> !wanted(devs[j])
  }

  lemma {:induction false} WantedAt(devs: seq<Device>, wanted: Device -> bool, i: nat)
    requires i <= |devs| && (i < |devs| ==> wanted(devs[i])) && forall j :: 0 <= j < i ==> !wanted(devs[j])
    ensures i < |devs| ==> FirstWanted(devs, wanted, i)
    ensures i == |devs| ==> forall j :: !FirstWanted(devs, wanted, j)
  {
  }

  class Context {
    // whether the backend reports devices as they come and go
    const hasHotplug: bool
    var usbDevs: seq<Device>
    var openDevs: seq<Handle>
    // the dev field of every transfer allocated so far
    var transfers: seq<Option<Device>>
    // the devices of the DEVICE_LEFT messages that are waiting
    var leaving: seq<Device>
    ghost var live: set<Device>
    // devices whose destruction has begun: their parents are let go of first
    ghost var dying: set<Device>
    // the references the program, the backend and the library's own code hold at the moment
    ghost var held: multiset<Device>

    ghost function Kept(): multiset<Device>
      reads `openDevs, `transfers, `usbDevs, `leaving
    {
      KeptBy(hasHotplug, usbDevs, openDevs, leaving, transfers)
    }

    /** Every reference to a device from outside the device tree. */
    ghost function Refs(): multiset<Device>
      reads `held, `openDevs, `transfers, `usbDevs, `leaving
    {
      held + Kept()
    }

    ghost predicate Valid()
      reads this, live`refcnt
    {
      Counted(live, Refs()) && Tidy(hasHotplug, usbDevs, openDevs, leaving, live, dying)
    }

    lemma {:induction false} Parts()
      requires Valid()
      ensures Refs() == held + Kept() && Kept() == KeptBy(hasHotplug, usbDevs, openDevs, leaving, transfers)
      ensures Closed(live, Refs()) && Tidy(hasHotplug, usbDevs, openDevs, leaving, live, dying)
      ensures forall d :: d in live ==> d.refcnt == Count(live, Refs(), d)
    {
    }

    lemma {:induction false} Whole(refs: multiset<Device>)
      requires refs == held + KeptBy(hasHotplug, usbDevs, openDevs, leaving, transfers) && Closed(live, refs)
      requires Tidy(hasHotplug, usbDevs, openDevs, leaving, live, dying)
      requires forall d :: d in live ==> d.refcnt == Count(live, refs, d)
      ensures Valid() && Refs() == refs
    {
    }

    constructor (hasHotplug: bool)
      ensures Valid() && this.hasHotplug == hasHotplug && live == {} && held == multiset{}
    {
      this.hasHotplug := hasHotplug;
      usbDevs, openDevs, transfers, leaving, live, dying, held := [], [], [], [], {}, {}, multiset{};
    }

    /** The devices alive with their counts. */
    ghost function Counts(): map<Device, int>
      reads `live, live`refcnt
    {
      map d | d in live :: d.refcnt
    }

    lemma {:induction false} Exact()
      requires Valid()
      ensures Refs() == held + Kept() && Closed(live, Refs()) && Counts() == CountMap(live, Refs())
    {
    }

    /** libusb_ref_device. */
    method Ref(dev: Device)
      requires Valid() && dev in live
      modifies `held, dev`refcnt
      ensures Valid() && held == old(held) + multiset{dev} && dev.refcnt == old(dev.refcnt) + 1
      ensures live == old(live) && dying == old(dying) && usbDevs == old(usbDevs) && openDevs == old(openDevs)
      ensures Kept() == old(Kept())
    {
      hide Count, Closed, Kept, Tidy;
      TakeOne(live, Refs(), dev);
      assert dev.refcnt >= 1 by { LastOrNot(live, Refs(), dev); }
      dev.refcnt := dev.refcnt + 1;
      held := held + multiset{dev};
      assert dev.refcnt >= 2;
      assert Refs() == old(Refs()) + multiset{dev};
    }

    /** The state inside libusb_unref_device after the decrement, before the reference is written off. */
    ghost predicate Decremented(dev: Device)
      reads this, live`refcnt
    {
      && Closed(live, Refs()) && Tidy(hasHotplug, usbDevs, openDevs, leaving, live, dying) && dev in held
      && forall d :: d in live ==> d.refcnt == Count(live, Refs(), d) - if d == dev then 1 else 0
    }

    /** usbi_atomic_dec. */
    method Decrement(dev: Device) returns (refcnt: int)
      requires Valid() && dev in held
      modifies dev`refcnt
      ensures Decremented(dev) && dev.refcnt == refcnt == old(dev.refcnt) - 1 && refcnt >= 0
    {
      hide Count, Kept, Tidy;
      LastOrNot(live, Refs(), dev);
      dev.refcnt := dev.refcnt - 1;
      refcnt := dev.refcnt;
    }

    ghost method WriteOffOne(dev: Device)
      requires Decremented(dev) && dev.refcnt != 0
      modifies `held
      ensures Valid() && held == old(held) - multiset{dev}
    {
      hide Closed, Count, KeptBy, Tidy;
      LastOrNot(live, Refs(), dev);
      DropOne(live, Refs(), dev);
      StillReferred(held, Kept(), dev, multiset{});
      held := held - multiset{dev};
      Whole(old(Refs()) - multiset{dev});
    }

    /** With the last reference the device goes, and its own reference to its parent is left to be given up. */
    ghost method WriteOffLast(dev: Device)
      requires Decremented(dev) && dev.refcnt == 0
      modifies `held, `live, `dying
      ensures Valid() && dev in old(live) && dev !in old(dying)
      ensures held == old(held) - multiset{dev} + Parent(dev) && live == old(live) - {dev}
      ensures dying == old(dying) + {dev}
    {
      hide Closed, Count, KeptBy, Tidy, Parent;
      LastOrNot(live, Refs(), dev);
      Moved(hasHotplug, usbDevs, openDevs, leaving, live, dying, dev);
      DropLast(live, Refs(), dev);
      StillReferred(held, Kept(), dev, Parent(dev));
      live, dying, held := live - {dev}, dying + {dev}, held - multiset{dev} + Parent(dev);
      Whole(old(Refs()) - multiset{dev} + Parent(dev));
    }

    /** The end of a destruction; usbi_disconnect_device when the backend has no hotplug support. */
    method Detach(dev: Device)
      requires Valid() && dev in dying
      modifies `dying, `usbDevs, dev`attached
      ensures Valid() && dying == old(dying) - {dev} && Kept() == old(Kept())
      ensures hasHotplug ==> usbDevs == old(usbDevs)
    {
      hide *;
      Parts();
      Detached(hasHotplug, usbDevs, openDevs, leaving, transfers, live, dying, dev);
      if !hasHotplug {
        dev.attached := false;
        usbDevs := Without(usbDevs, {dev});
      }
      dying := dying - {dev};
      Whole(old(Refs()));
      Parts();
    }

    lemma {:induction false} InLive(dev: Device)
      requires Valid() && dev in held
      ensures dev in live && dev.refcnt > 0 && dev !in dying && (dying + {dev}) - {dev} == dying
      ensures dev.parent != null ==> dev.parent.depth < dev.depth
    {
    }

    /** The reference is given up; was it the last one? */
    method GiveUp(dev: Device) returns (last: bool)
      requires Valid() && dev in held
      modifies `held, `live, `dying, dev`refcnt
      ensures Valid() && dev in old(live) && dev !in old(dying) && dev.refcnt == old(dev.refcnt) - 1
      ensures last <==> dev.refcnt == 0
      ensures held == if last then old(held) - multiset{dev} + Parent(dev) else old(held) - multiset{dev}
      ensures live == (if last then old(live) - {dev} else old(live))
      ensures dying == if last then old(dying) + {dev} else old(dying)
      ensures Kept() == old(Kept()) && dev.refcnt >= 0
    {
      hide *;
      InLive(dev);
      var refcnt := Decrement(dev);
      last := refcnt == 0;
      if last {
        WriteOffLast(dev);
      } else {
        WriteOffOne(dev);
      }
    }

    /** The part of libusb_unref_device for a count that has reached zero. */
    method Destroy(dev: Device) returns (ghost gone: seq<Device>)
      requires Valid() && dev in dying && dev !in live && Parent(dev) <= held
      requires dev.parent != null ==> dev.parent.depth < dev.depth
      modifies `held, `live, `dying, `usbDevs, live`refcnt, live`attached, dev`attached
      ensures Valid() && held == old(held) - Parent(dev) && dying == old(dying) - {dev}
      ensures live <= old(live) && Destroyed(gone, old(live) + {dev}, live) && ParentsFirst(gone, dev) && gone != []
      ensures forall d :: d in gone ==> d == dev || d.refcnt == 0
      ensures Kept() == old(Kept()) && (hasHotplug ==> usbDevs == old(usbDevs))
      ensures forall d :: d in live ==> d.attached == old(d.attached)
      decreases dev.depth, 0
    {
      hide *;
      gone := [];
      NoParent(dev);
      if dev.parent != null {
        gone := Unref(dev.parent);
      }
      Detach(dev);
      AlsoDestroyed(gone, dev, old(live), live);
      gone := gone + [dev];
    }

    /** libusb_unref_device. The devices destroyed are listed in the order they are: a chain of parents
        that ends at `dev`, each the parent of the next. */
    method Unref(dev: Device) returns (ghost gone: seq<Device>)
      requires Valid() && dev in held
      modifies `held, `live, `dying, `usbDevs, live`refcnt, live`attached
      ensures Valid() && held == old(held) - multiset{dev} && dying == old(dying)
      ensures live <= old(live) && Destroyed(gone, old(live), live) && ParentsFirst(gone, dev)
      ensures forall d :: d in gone ==> d.refcnt == 0
      ensures gone == [] <==> old(dev.refcnt) > 1
      ensures Kept() == old(Kept()) && (hasHotplug ==> usbDevs == old(usbDevs))
      ensures forall d :: d in live ==> d.attached == old(d.attached)
      decreases dev.depth, 1
    {
      hide *;
      InLive(dev);
      gone := [];
      NoneDestroyed(live, dev);
      var last := GiveUp(dev);
      if last {
        gone := Destroy(dev);
        AlsoDead(old(live), dev, gone, live);
      }
    }

    /** list_add of a handle: it takes over a reference. */
    method AddHandle(h: Handle, ghost others: multiset<Device>)
      requires Valid() && held == others + multiset{h.dev} && h !in openDevs
      modifies `openDevs, `held
      ensures Valid() && openDevs == [h] + old(openDevs) && held == others
      ensures live == old(live) && dying == old(dying) && usbDevs == old(usbDevs) && h.dev.refcnt == old(h.dev.refcnt)
      ensures Refs() == old(Refs())
    {
      hide *;
      Parts();
      HandleAdded(hasHotplug, usbDevs, openDevs, leaving, transfers, live, dying, others, h);
      openDevs, held := [h] + openDevs, others;
      Whole(old(Refs()));
    }

    /** list_del of a handle: its reference is the caller's. */
    method RemoveHandle(h: Handle, ghost others: multiset<Device>)
      requires Valid() && h in openDevs && held == others
      modifies `openDevs, `held
      ensures Valid() && openDevs == Without(old(openDevs), {h}) && held == others + multiset{h.dev}
      ensures live == old(live) && dying == old(dying) && usbDevs == old(usbDevs)
      ensures Refs() == old(Refs())
    {
      hide *;
      Parts();
      HandleRemoved(hasHotplug, usbDevs, openDevs, leaving, transfers, live, dying, held, h);
      openDevs, held := Without(openDevs, {h}), held + multiset{h.dev};
      Whole(old(Refs()));
    }

    /** A transfer's dev field is cleared: its reference is the caller's. */
    method TakeDev(t: nat)
      requires Valid() && t < |transfers| && transfers[t].Some?
      modifies `transfers, `held
      ensures Valid() && transfers == old(transfers)[t := None] && held == old(held) + multiset{old(transfers)[t].value}
      ensures live == old(live) && dying == old(dying) && usbDevs == old(usbDevs) && openDevs == old(openDevs)
      ensures Refs() == old(Refs())
    {
      hide *;
      Parts();
      DevTaken(hasHotplug, usbDevs, openDevs, leaving, transfers, held, t);
      transfers, held := transfers[t := None], held + multiset{transfers[t].value};
      Whole(old(Refs()));
    }

    /** A transfer's dev field is set: it takes over a reference. */
    method GiveDev(t: nat, dev: Device, ghost others: multiset<Device>)
      requires Valid() && t < |transfers| && transfers[t] == None && held == others + multiset{dev}
      modifies `transfers, `held
      ensures Valid() && transfers == old(transfers)[t := Some(dev)] && held == others
      ensures live == old(live) && dying == old(dying) && usbDevs == old(usbDevs) && openDevs == old(openDevs)
      ensures Refs() == old(Refs())
    {
      hide *;
      Parts();
      DevGiven(hasHotplug, usbDevs, openDevs, leaving, transfers, others, t, dev);
      transfers, held := transfers[t := Some(dev)], others;
      Whole(old(Refs()));
    }

    /** usbi_connect_device, for a backend that reports devices as they come: the list gets the backend's reference. */
    method Connect(dev: Device)
      requires Valid() && hasHotplug && dev in held && dev !in usbDevs
      modifies `usbDevs, `held, dev`attached
      ensures Valid() && usbDevs == [dev] + old(usbDevs) && held == old(held) - multiset{dev} && dev.attached
    {
      hide *;
      Parts();
      Listed(usbDevs, openDevs, leaving, transfers, live, dying, held, dev);
      dev.attached := true;
      usbDevs, held := [dev] + usbDevs, held - multiset{dev};
      Whole(old(Refs()));
    }

    /** usbi_disconnect_device: the message that the device left takes over the list's reference. */
    method Disconnect(dev: Device)
      requires Valid() && hasHotplug && dev in usbDevs
      modifies `usbDevs, `leaving, dev`attached
      ensures Valid() && usbDevs == Without(old(usbDevs), {dev}) && leaving == old(leaving) + [dev] && !dev.attached
    {
      hide *;
      Parts();
      Unlisted(usbDevs, openDevs, leaving, transfers, live, dying, dev);
      dev.attached := false;
      usbDevs, leaving := Without(usbDevs, {dev}), leaving + [dev];
      Whole(old(Refs()));
    }

    method TakeMessage() returns (dev: Device)
      requires Valid() && hasHotplug && leaving != []
      modifies `leaving, `held
      ensures Valid() && dev == old(leaving)[0] && leaving == old(leaving)[1..] && held == old(held) + multiset{dev}
    {
      hide *;
      Parts();
      dev := leaving[0];
      MessageTaken(usbDevs, openDevs, leaving, transfers, live, dying, held);
      leaving, held := leaving[1..], held + multiset{dev};
      Whole(old(Refs()));
    }

    /** usbi_hotplug_process drops the reference of the message it has delivered. */
    method MessageDelivered() returns (ghost gone: seq<Device>)
      requires Valid() && hasHotplug && leaving != []
      modifies `leaving, `held, `live, `dying, `usbDevs, live`refcnt, live`attached
      ensures Valid() && leaving == old(leaving)[1..] && held == old(held)
      ensures gone != [] <==> old(leaving[0].refcnt) == 1
      ensures Destroyed(gone, old(live), live)
    {
      hide *;
      var dev := TakeMessage();
      InLive(dev);
      gone := Unref(dev);
    }

    /** The device takes over the reference to its parent, and without hotplug support it is listed. */
    method Adopt(d: Device)
      requires Valid() && d !in live && d !in dying && d.refcnt == 1
      requires d.parent != null ==> d.parent in held && d.parent.depth < d.depth
      modifies `live, `held, `usbDevs, d`attached
      ensures Valid() && Kept() == old(Kept()) && live == old(live) + {d} && held == old(held) - Parent(d) + multiset{d}
      ensures usbDevs == if hasHotplug then old(usbDevs) else [d] + old(usbDevs)
    {
      hide *;
      Parts();
      Created(hasHotplug, usbDevs, openDevs, leaving, transfers, live, dying, held, Refs(), d);
      if !hasHotplug {
        d.attached := true;
      }
      live, held := live + {d}, held - Parent(d) + multiset{d};
      usbDevs := if hasHotplug then usbDevs else [d] + usbDevs;
      Whole(old(Refs()) - Parent(d) + multiset{d});
      Parts();
    }

    /** usbi_alloc_device and the backend's initialisation, which stores a reference to the parent. */
    method Alloc(parent: Device?) returns (dev: Device?)
      requires Valid() && (parent != null ==> parent in held)
      modifies `live, `held, `usbDevs
      ensures Valid() && Kept() == old(Kept())
      ensures dev == null ==> live == old(live) && held == old(held) && usbDevs == old(usbDevs)
      ensures dev != null ==> fresh(dev) && dev.parent == parent && live == old(live) + {dev}
      ensures dev != null ==> held == old(held) - Parent(dev) + multiset{dev}
      ensures dev != null ==> usbDevs == if hasHotplug then old(usbDevs) else [dev] + old(usbDevs)
    {
      hide *;
      dev := null;
      if * {
        var d := new Device(parent);
        Adopt(d);
        dev := d;
      }
    }

    /** The loops of discovered_devs_free and of libusb_free_device_list. */
    method UnrefAll(devs: seq<Device>, ghost others: multiset<Device>)
      requires Valid() && held == others + multiset(devs)
      modifies `held, `live, `dying, `usbDevs, live`refcnt, live`attached
      ensures Valid() && held == others && dying == old(dying) && live <= old(live)
      ensures Kept() == old(Kept()) && (hasHotplug ==> usbDevs == old(usbDevs))
    {
      hide *;
      TakenNone(devs, others);
      for i := 0 to |devs|
        invariant Valid() && Taken(devs, i, others, held) && dying == old(dying) && live <= old(live)
        invariant Kept() == old(Kept()) && (hasHotplug ==> usbDevs == old(usbDevs))
      {
        TakenOne(devs, i, others, held);
        ghost var gone := Unref(devs[i]);
      }
      TakenAll(devs, others, held);
    }

    /** discovered_devs_append: growing may fail, and then the whole collection is let go of. */
    method Append(found: DiscoveredDevs, dev: Device) returns (r: Option<DiscoveredDevs>)
      requires Valid() && dev in live && multiset(found.devices) <= held && |found.devices| <= found.capacity
      modifies `held, `live, `dying, `usbDevs, live`refcnt, live`attached
      ensures Valid() && dying == old(dying) && Kept() == old(Kept()) && (hasHotplug ==> usbDevs == old(usbDevs))
      ensures r.Some? ==> r.value.devices == found.devices + [dev] && |r.value.devices| <= r.value.capacity
      ensures r.Some? ==> held == old(held) + multiset{dev} && live == old(live)
      ensures r.None? ==> held == old(held) - multiset(found.devices) && live <= old(live)
    {
      assert DISCOVERED_DEVICES_SIZE_STEP == 16;
      hide *;
      if |found.devices| < found.capacity {
        Ref(dev);
        r := Some(found.(devices := found.devices + [dev]));
      } else {
        if * {
          ApartFrom(found.devices, held);
          UnrefAll(found.devices, held - multiset(found.devices));
          return None;
        }
        Ref(dev);
        r := Some(DiscoveredDevs(found.devices + [dev], found.capacity + DISCOVERED_DEVICES_SIZE_STEP));
      }
    }

    method DiscoverBelow(parent: Device?) returns (dev: Device?)
      requires Valid() && dying == {} && (parent != null ==> parent in held)
      modifies `held, `live, `dying, `usbDevs, live`refcnt, live`attached
      ensures Valid() && dying == {} && Kept() == old(Kept()) && (hasHotplug ==> usbDevs == old(usbDevs))
      ensures held == old(held) - (if parent == null then multiset{} else multiset{parent})
                      + (if dev == null then multiset{} else multiset{dev})
      ensures fresh(live - old(live))
    {
      hide *;
      dev := Alloc(parent);
      if dev != null {
        NoParent(dev);
      } else if parent != null {
        ghost var gone := Unref(parent);
      }
    }

    lemma {:induction false} ListedLive(dev: Device)
      requires Valid() && dying == {} && dev in usbDevs
      ensures dev in live
    {
      if hasHotplug {
        assert dev in multiset(usbDevs);
        assert dev in Refs();
      } else {
        assert dev in (set d | d in usbDevs);
      }
    }

    /** A lookup among the devices known, which finds one or none. */
    method LookUp() returns (dev: Device?)
      requires Valid() && dying == {}
      modifies `held, live`refcnt
      ensures Valid() && dying == {} && Kept() == old(Kept()) && usbDevs == old(usbDevs) && live == old(live)
      ensures held == if dev == null then old(held) else old(held) + multiset{dev}
    {
      hide *;
      dev := null;
      var k: int := *;
      if 0 <= k < |usbDevs| {
        dev := usbDevs[k];
        ListedLive(dev);
        Ref(dev);
      }
    }

    /** A device the backend comes across: a known one, or a new one below a known one or none. */
    method Discover() returns (dev: Device?)
      requires Valid() && dying == {}
      modifies `held, `live, `dying, `usbDevs, live`refcnt, live`attached
      ensures Valid() && dying == {} && Kept() == old(Kept()) && (hasHotplug ==> usbDevs == old(usbDevs))
      ensures held == if dev == null then old(held) else old(held) + multiset{dev}
      ensures fresh(live - old(live))
    {
      hide *;
      dev := LookUp();
      if * {
        assert dev != null ==> dev in held && old(held) + multiset{dev} - multiset{dev} == old(held);
        dev := DiscoverBelow(dev);
      }
    }

    /** A device is appended; the backend's own reference to it is dropped again. */
    method AppendFound(found: DiscoveredDevs, dev: Device, ghost others: multiset<Device>)
      returns (more: Option<DiscoveredDevs>)
      requires Valid() && dying == {} && held == others + Collected(Some(found)) + multiset{dev}
      requires |found.devices| <= found.capacity
      modifies `held, `live, `dying, `usbDevs, live`refcnt, live`attached
      ensures Valid() && dying == {} && Kept() == old(Kept()) && (hasHotplug ==> usbDevs == old(usbDevs))
      ensures live <= old(live)
      ensures (more.Some? ==> |more.value.devices| <= more.value.capacity) && held == others + Collected(more)
    {
      hide *;
      CollectedIs(Some(found));
      InLive(dev);
      more := Append(found, dev);
      ghost var gone := Unref(dev);
      OneMore(found.devices, dev, others);
      CollectedIs(more);
    }

    /** One device found, or none. */
    method ScanOne(found: DiscoveredDevs, ghost others: multiset<Device>) returns (r: int, more: Option<DiscoveredDevs>)
      requires Valid() && dying == {} && held == others + Collected(Some(found)) && |found.devices| <= found.capacity
      modifies `held, `live, `dying, `usbDevs, live`refcnt, live`attached
      ensures Valid() && dying == {} && Kept() == old(Kept()) && (hasHotplug ==> usbDevs == old(usbDevs))
      ensures fresh(live - old(live)) && (more.Some? ==> |more.value.devices| <= more.value.capacity)
      ensures more.None? ==> r < 0
      ensures held == others + Collected(more)
    {
      assert ERROR_NO_MEM < 0;
      hide *;
      var dev := Discover();
      if dev == null {
        return 0, Some(found);
      }
      more := AppendFound(found, dev, others);
      r := *;
      if more.None? {
        r := ERROR_NO_MEM;
      }
    }

    /** The backend's get_device_list: it looks known devices up, each lookup giving it a reference, or
        allocates new ones, appends them, and lets go of its own reference. It may give up at any point. */
    method Scan(found: DiscoveredDevs) returns (r: int, more: Option<DiscoveredDevs>)
      requires Valid() && dying == {} && found.devices == [] && found.capacity >= 0
      modifies `held, `live, `dying, `usbDevs, live`refcnt, live`attached
      ensures Valid() && dying == {} && Kept() == old(Kept()) && (hasHotplug ==> usbDevs == old(usbDevs))
      ensures more.None? ==> r < 0
      ensures held == old(held) + Collected(more)
      ensures fresh(live - old(live))
    {
      hide *;
      r, more := 0, Some(found);
      NothingYet(found, held);
      var rounds: int := *;
      while r == 0 && rounds > 0
        invariant Valid() && dying == {} && Kept() == old(Kept()) && (hasHotplug ==> usbDevs == old(usbDevs))
        invariant fresh(live - old(live))
        invariant held == old(held) + Collected(more)
        invariant (more.Some? ==> |more.value.devices| <= more.value.capacity) && (more.None? ==> r < 0)
      {
        r, more := ScanOne(more.value, old(held));
        rounds := rounds - 1;
      }
    }

    method GatherOne(found: DiscoveredDevs, devs: seq<Device>, i: nat, ghost others: multiset<Device>)
      returns (more: Option<DiscoveredDevs>)
      requires Valid() && dying == {} && hasHotplug && devs == usbDevs && i < |devs|
      requires held == others + Collected(Some(found))
      requires found.devices == devs[..i] && i <= found.capacity
      modifies `held, `live, `dying, `usbDevs, live`refcnt, live`attached
      ensures Valid() && dying == {} && usbDevs == old(usbDevs) && live <= old(live) && held == others + Collected(more)
      ensures more.Some? ==> more.value.devices == devs[..i + 1] && i + 1 <= more.value.capacity
    {
      hide *;
      CollectedIs(Some(found));
      assert devs[i] in usbDevs;
      ListedLive(devs[i]);
      assert devs[..i + 1] == devs[..i] + [devs[i]];
      more := Append(found, devs[i]);
      OneCollected(found.devices, devs[i], others);
      CollectedIs(more);
    }

    /** The walk over the context's devices in libusb_get_device_list. */
    method Gather(found: DiscoveredDevs) returns (more: Option<DiscoveredDevs>)
      requires Valid() && dying == {} && hasHotplug && found.devices == [] && found.capacity >= 0
      modifies `held, `live, `dying, `usbDevs, live`refcnt, live`attached
      ensures Valid() && dying == {} && usbDevs == old(usbDevs) && live <= old(live)
      ensures held == old(held) + Collected(more)
      ensures more.Some? ==> more.value.devices == usbDevs
    {
      hide *;
      var devs := usbDevs;
      more := Some(found);
      assert devs[..0] == [];
      NothingYet(found, held);
      for i := 0 to |devs|
        invariant Valid() && dying == {} && usbDevs == devs && live <= old(live)
        invariant more.Some? && more.value.devices == devs[..i] && i <= more.value.capacity
        invariant held == old(held) + Collected(more)
      {
        more := GatherOne(more.value, devs, i, old(held));
        if more.None? {
          return;
        }
      }
      assert devs[..|devs|] == devs;
    }

    method Collect() returns (r: int, found: Option<DiscoveredDevs>)
      requires Valid() && dying == {}
      modifies `held, `live, `dying, `usbDevs, live`refcnt, live`attached
      ensures Valid() && dying == {} && Kept() == old(Kept()) && (hasHotplug ==> usbDevs == old(usbDevs))
      ensures fresh(live - old(live))
      ensures held == old(held) + Collected(found)
      ensures (found.None? ==> r < 0) && (r >= 0 && hasHotplug ==> found.value.devices == usbDevs)
    {
      assert ERROR_NO_MEM < 0 && DISCOVERED_DEVICES_SIZE_STEP == 16;
      hide *;
      var empty := DiscoveredDevs([], DISCOVERED_DEVICES_SIZE_STEP);
      if hasHotplug {
        found := Gather(empty);
        r := if found.None? then ERROR_NO_MEM else 0;
      } else {
        r, found := Scan(empty);
      }
    }

    /** The copying loop of libusb_get_device_list. */
    method RefAll(devs: seq<Device>)
      requires Valid() && multiset(devs) <= held
      modifies `held, live`refcnt
      ensures Valid() && held == old(held) + multiset(devs)
    {
      hide *;
      assert devs[..0] == [];
      for i := 0 to |devs|
        invariant Valid() && held == old(held) + multiset(devs[..i])
      {
        assert devs[..i + 1] == devs[..i] + [devs[i]];
        assert devs[i] in multiset(devs);
        InLive(devs[i]);
        Ref(devs[i]);
      }
      assert devs[..|devs|] == devs;
    }

    /** The copy of the collection, each entry with a reference of its own; the collection's are dropped. */
    method CopyOut(devs: seq<Device>, ghost others: multiset<Device>) returns (len: int, list: seq<Device>)
      requires Valid() && dying == {} && held == others + multiset(devs)
      modifies `held, `live, `dying, `usbDevs, live`refcnt, live`attached
      ensures Valid() && dying == {} && Kept() == old(Kept()) && (hasHotplug ==> usbDevs == old(usbDevs))
      ensures live <= old(live)
      ensures held == others + multiset(list)
      ensures if len < 0 then list == [] else list == devs && len == |list|
    {
      assert ERROR_NO_MEM < 0;
      hide *;
      if * {
        len, list := ERROR_NO_MEM, [];
        UnrefAll(devs, others);
        ListBack(others, list);
      } else {
        len, list := |devs|, devs;
        RefAll(devs);
        UnrefAll(devs, others + multiset(devs));
      }
    }

    /** libusb_get_device_list. Its own collection is let go of on every path; what is left is one reference
        for each device in the list returned, and on failure nothing. */
    method GetDeviceList() returns (len: int, list: seq<Device>)
      requires Valid() && dying == {}
      modifies `held, `live, `dying, `usbDevs, live`refcnt, live`attached
      ensures Valid() && dying == {} && Kept() == old(Kept()) && (hasHotplug ==> usbDevs == old(usbDevs))
      ensures held == old(held) + multiset(list) && (len < 0 ==> list == []) && (len >= 0 ==> |list| == len)
      ensures fresh(live - old(live))
      ensures len >= 0 && hasHotplug ==> list == usbDevs
    {
      assert ERROR_NO_MEM < 0 && ERROR_IO < 0;
      hide *;
      list := [];
      if * {
        return ERROR_NO_MEM, [];
      }
      var r, found := Collect();
      CollectedIs(found);
      if r < 0 {
        if found.Some? {
          UnrefAll(found.value.devices, old(held));
        }
        len := r;
      } else {
        len, list := CopyOut(found.value.devices, old(held));
      }
    }

    /** libusb_free_device_list. */
    method FreeDeviceList(list: seq<Device>, unrefDevices: bool)
      requires Valid() && dying == {} && (unrefDevices ==> multiset(list) <= held)
      modifies `held, `live, `dying, `usbDevs, live`refcnt, live`attached
      ensures Valid() && dying == {} && live <= old(live) && Kept() == old(Kept())
      ensures hasHotplug ==> usbDevs == old(usbDevs)
      ensures held == if unrefDevices then old(held) - multiset(list) else old(held)
    {
      if unrefDevices {
        ApartFrom(list, held);
        UnrefAll(list, held - multiset(list));
      }
    }

    /** libusb_unref_device of a reference on top of those that suffice for the devices `was`. */
    method GiveBack(dev: Device, ghost was: set<Device>, ghost others: multiset<Device>)
      requires Valid() && held == others + multiset{dev} && Closed(was, others + Kept())
      modifies `held, `live, `dying, `usbDevs, live`refcnt, live`attached
      ensures Valid() && held == others && dying == old(dying) && Kept() == old(Kept())
      ensures openDevs == old(openDevs) && (hasHotplug ==> usbDevs == old(usbDevs))
      ensures live == was && Counts() == CountMap(was, Refs()) && Refs() == held + Kept()
    {
      hide *;
      Same(others, Kept(), dev);
      ghost var gone := Unref(dev);
      Exact();
      ReferencesDecide(was, live, Refs());
    }

    /** libusb_open from the point where it takes its reference. */
    method OpenAttached(dev: Device, id: nat) returns (r: int, h: Option<Handle>)
      requires Valid() && dying == {} && dev in live && Fresh(openDevs, id)
      modifies `held, `openDevs, `live, `dying, `usbDevs, live`refcnt, live`attached
      ensures Valid() && dying == {} && held == old(held) && (hasHotplug ==> usbDevs == old(usbDevs))
      ensures r == SUCCESS <==> h.Some?
      ensures h.Some? ==> h.value == Handle(id, dev) && openDevs == [h.value] + old(openDevs)
      ensures live == old(live)
      ensures h.None? ==> openDevs == old(openDevs) && Kept() == old(Kept()) && Counts() == old(Counts())
      ensures h.Some? ==> dev.refcnt == old(dev.refcnt) + 1 && Refs() == old(Refs()) + multiset{dev}
    {
      assert SUCCESS == 0;
      NotOpen(openDevs, id, dev);
      hide *;
      Exact();
      Ref(dev);
      r := *;
      if r < 0 {
        GiveBack(dev, old(live), old(held));
        h := None;
      } else {
        r, h := SUCCESS, Some(Handle(id, dev));
        Exact();
        Later(held, Kept(), old(held), dev);
        AddHandle(Handle(id, dev), old(held));
      }
    }

    /** libusb_open; `id` stands for the address of the new handle. */
    method Open(dev: Device, id: nat) returns (r: int, h: Option<Handle>)
      requires Valid() && dying == {} && dev in live && Fresh(openDevs, id)
      modifies `held, `openDevs, `live, `dying, `usbDevs, live`refcnt, live`attached
      ensures Valid() && dying == {} && held == old(held) && (hasHotplug ==> usbDevs == old(usbDevs))
      ensures (r == SUCCESS <==> h.Some?) && (!old(dev.attached) ==> r == ERROR_NO_DEVICE)
      ensures h.Some? ==> h.value == Handle(id, dev) && openDevs == [h.value] + old(openDevs)
      ensures live == old(live)
      ensures h.None? ==> openDevs == old(openDevs) && Kept() == old(Kept()) && Counts() == old(Counts())
      ensures h.Some? ==> dev.refcnt == old(dev.refcnt) + 1 && Refs() == old(Refs()) + multiset{dev}
    {
      assert SUCCESS == 0 && ERROR_NO_DEVICE < 0 && ERROR_NO_MEM < 0;
      hide *;
      if !dev.attached {
        return ERROR_NO_DEVICE, None;
      }
      if * {
        return ERROR_NO_MEM, None;
      }
      r, h := OpenAttached(dev, id);
    }

    /** The end of do_close: the handle goes, and the reference that libusb_open took. */
    method Close(h: Handle) returns (ghost gone: seq<Device>)
      requires Valid() && dying == {} && h in openDevs
      modifies `held, `openDevs, `live, `dying, `usbDevs, live`refcnt, live`attached
      ensures Valid() && dying == {} && held == old(held) && openDevs == Without(old(openDevs), {h})
      ensures live <= old(live) && Destroyed(gone, old(live), live) && ParentsFirst(gone, h.dev)
      ensures Refs() == old(Refs()) - multiset{h.dev} && (hasHotplug ==> usbDevs == old(usbDevs))
    {
      hide *;
      RemoveHandle(h, held);
      Same(old(held), Kept(), h.dev);
      Exact();
      gone := Unref(h.dev);
      Exact();
    }

    /** libusb_alloc_transfer zeroes the new transfer. */
    method AllocTransfer() returns (t: nat)
      requires Valid()
      modifies `transfers
      ensures Valid() && t == |old(transfers)| && transfers == old(transfers) + [None]
    {
      hide *;
      Parts();
      t := |transfers|;
      transfers := transfers + [None];
      MoreTransfers(hasHotplug, usbDevs, openDevs, leaving, old(transfers));
      Whole(old(Refs()));
    }

    method DropTaken(dev: Device, ghost others: multiset<Device>)
      requires Valid() && dying == {} && held == others + multiset{dev}
      modifies `held, `live, `dying, `usbDevs, live`refcnt, live`attached
      ensures Valid() && dying == {} && held == others && Refs() == old(Refs()) - multiset{dev}
      ensures transfers == old(transfers) && openDevs == old(openDevs) && live <= old(live)
      ensures hasHotplug ==> usbDevs == old(usbDevs)
    {
      hide *;
      Same(others, Kept(), dev);
      Exact();
      ghost var gone := Unref(dev);
      Exact();
    }

    /** The reference of a transfer's last submission is dropped. */
    method DropDev(t: nat)
      requires Valid() && dying == {} && t < |transfers|
      modifies `transfers, `held, `live, `dying, `usbDevs, live`refcnt, live`attached
      ensures Valid() && dying == {} && held == old(held) && transfers == old(transfers)[t := None]
      ensures openDevs == old(openDevs) && live <= old(live) && (hasHotplug ==> usbDevs == old(usbDevs))
      ensures Refs() == old(Refs()) - One(old(transfers)[t])
    {
      OneOf(transfers[t], Refs());
      hide *;
      if transfers[t].Some? {
        var dev := transfers[t].value;
        TakeDev(t);
        Same(old(held), Kept(), dev);
        DropTaken(dev, old(held));
      }
    }

    lemma {:induction false} OpenLive(h: Handle)
      requires Valid() && h in openDevs
      ensures h.dev in live
    {
      DevsHas(openDevs, h);
      assert h.dev in Refs();
    }

    /** The first lines of libusb_submit_transfer: the transfer lets go of the device of its last submission
        and takes a reference to that of its handle, which the handle keeps alive even when they are the same. */
    method SubmitRef(t: nat, h: Handle)
      requires Valid() && dying == {} && t < |transfers| && h in openDevs
      modifies `transfers, `held, `live, `dying, `usbDevs, live`refcnt, live`attached
      ensures Valid() && dying == {} && held == old(held) && transfers == old(transfers)[t := Some(h.dev)]
      ensures openDevs == old(openDevs) && live <= old(live) && (hasHotplug ==> usbDevs == old(usbDevs))
      ensures Refs() == old(Refs()) - One(old(transfers)[t]) + multiset{h.dev}
    {
      hide *;
      DropDev(t);
      OpenLive(h);
      Exact();
      Ref(h.dev);
      Exact();
      Later(held, Kept(), old(held), h.dev);
      GiveDev(t, h.dev, old(held));
    }

    /** libusb_free_transfer. */
    method FreeTransfer(t: nat)
      requires Valid() && dying == {} && t < |transfers|
      modifies `transfers, `held, `live, `dying, `usbDevs, live`refcnt, live`attached
      ensures Valid() && dying == {} && held == old(held) && transfers == old(transfers)[t := None]
      ensures openDevs == old(openDevs) && live <= old(live) && (hasHotplug ==> usbDevs == old(usbDevs))
      ensures Refs() == old(Refs()) - One(old(transfers)[t])
    {
      hide *;
      DropDev(t);
    }

    /** With the references back to what they were, so are the devices and their counts. */
    lemma {:induction false} Neutral(was: set<Device>, refs: multiset<Device>)
      requires Valid() && Closed(was, refs) && refs == Refs()
      ensures live == was && Counts() == CountMap(was, refs)
    {
      hide *;
      Exact();
      ReferencesDecide(was, live, refs);
    }

    /** A program that lists the devices and frees the list changes nothing, whether the listing succeeds or not. */
    method ListAndFree() returns (len: int)
      requires Valid() && dying == {}
      modifies `held, `live, `dying, `usbDevs, live`refcnt, live`attached
      ensures Valid() && dying == {} && held == old(held) && Kept() == old(Kept())
      ensures Counts() == old(Counts()) && (hasHotplug ==> usbDevs == old(usbDevs))
    {
      hide *;
      Exact();
      var list;
      len, list := GetDeviceList();
      ListBack(old(held), list);
      if len >= 0 {
        FreeDeviceList(list, true);
      }
      Exact();
      Neutral(old(live), old(Refs()));
    }

    /** So does one that opens a device and closes it. */
    method OpenAndClose(dev: Device, id: nat) returns (r: int)
      requires Valid() && dying == {} && dev in live && Fresh(openDevs, id)
      modifies `held, `openDevs, `live, `dying, `usbDevs, live`refcnt, live`attached
      ensures Valid() && dying == {} && held == old(held) && openDevs == old(openDevs)
      ensures Counts() == old(Counts()) && (hasHotplug ==> usbDevs == old(usbDevs))
    {
      NotOpen(openDevs, id, dev);
      hide *;
      Exact();
      var h;
      r, h := Open(dev, id);
      if h.Some? {
        WithoutNew(openDevs, h.value, old(openDevs));
        Same(old(Refs()), Kept(), dev);
        ghost var gone := Close(h.value);
        Neutral(old(live), old(Refs()));
      }
    }

    /** And one that submits a new transfer, with whatever outcome, and frees it when it is done. */
    method SubmitAndFree(t: nat, h: Handle)
      requires Valid() && dying == {} && t < |transfers| && transfers[t] == None && h in openDevs
      modifies `transfers, `held, `live, `dying, `usbDevs, live`refcnt, live`attached
      ensures Valid() && dying == {} && held == old(held) && transfers == old(transfers) && openDevs == old(openDevs)
      ensures Counts() == old(Counts()) && (hasHotplug ==> usbDevs == old(usbDevs))
    {
      Round(transfers, t, h.dev, Refs());
      hide *;
      Exact();
      SubmitRef(t, h);
      FreeTransfer(t);
      Neutral(old(live), old(Refs()));
    }

    /** libusb_open_device_with_vid_pid: of the list it makes, only the reference of the opened handle is left. That
        handle is of the first wanted device of the list, and there is one exactly when libusb_open was called and
        succeeded; `list` and `answer` are what the two calls gave. */
    method OpenFirst(wanted: Device -> bool, id: nat)
      returns (h: Option<Handle>, ghost list: Option<seq<Device>>, ghost answer: Option<int>)
      requires Valid() && dying == {} && Fresh(openDevs, id)
      modifies `held, `openDevs, `live, `dying, `usbDevs, live`refcnt, live`attached
      ensures Valid() && dying == {} && held == old(held) && (hasHotplug ==> usbDevs == old(usbDevs))
      ensures list.Some? && hasHotplug ==> list.value == usbDevs
      ensures answer.Some? <==> list.Some? && exists i :: FirstWanted(list.value, wanted, i)
      ensures h.Some? <==> answer == Some(SUCCESS)
      ensures h.None? ==> openDevs == old(openDevs)
      ensures h.Some? ==>
              openDevs == [h.value] + old(openDevs) && h.value.id == id && h.value.dev in live
              && exists i :: FirstWanted(list.value, wanted, i) && h.value.dev == list.value[i]
    {
      hide *;
      h, list, answer := None, None, None;
      var len, devs := GetDeviceList();
      if len < 0 {
        return;
      }
      list := Some(devs);
      var i := 0;
      while i < |devs| && !wanted(devs[i])
        invariant 0 <= i <= |devs| && forall j :: 0 <= j < i ==> !wanted(devs[j])
      {
        i := i + 1;
      }
      WantedAt(devs, wanted, i);
      ListBack(old(held), devs);
      if i < |devs| {
        assert devs[i] in multiset(devs);
        InLive(devs[i]);
        var r;
        r, h := Open(devs[i], id);
        answer := Some(r);
      }
      FreeDeviceList(devs, true);
      if h.Some? {
        OpenLive(h.value);
      }
    }
  }
}
