/** References to devices. A device's count is the number of references held to it: by the program, by open
    handles, by transfers, by the context itself, and by its live children. */
module References {
  import opened IntrusiveList
  import opened Sequences

  class Device {
    var refcnt: int
    var attached: bool
    // set by the backend while it initialises the device, and never changed
    const parent: Device?
    ghost const depth: nat

    /** calloc and the first store of usbi_alloc_device. */
    constructor (parent: Device?)
      ensures this.parent == parent && refcnt == 1 && !attached
      ensures parent != null ==> parent.depth < depth
    {
      this.parent := parent;
      refcnt, attached := 1, false;
      depth := if parent == null then 0 else parent.depth + 1;
    }
  }

  const DISCOVERED_DEVICES_SIZE_STEP := 16
  const ERROR_IO := -1
  const ERROR_NO_MEM := -11

  datatype DiscoveredDevs = DiscoveredDevs(devices: seq<Device>, capacity: nat)

  datatype Handle = Handle(id: nat, dev: Device)

  ghost function Children(live: set<Device>, d: Device): set<Device> {
    set c | c in live && c.parent == d
  }

  /** The number of references to a device. */
  ghost function Count(live: set<Device>, refs: multiset<Device>, d: Device): nat {
    refs[d] + |Children(live, d)|
  }

  /** No reference leads outside the live devices, and every live device has one. */
  ghost predicate Closed(live: set<Device>, refs: multiset<Device>) {
    && (forall d :: d in refs ==> d in live)
    && forall d :: d in live ==>
      Count(live, refs, d) > 0 && (d.parent != null ==> d.parent in live && d.parent.depth < d.depth)
  }

  ghost predicate Counted(live: set<Device>, refs: multiset<Device>)
    reads live`refcnt
  {
    Closed(live, refs) && forall d :: d in live ==> d.refcnt == Count(live, refs, d)
  }

  /** `d` is `r` itself, or an ancestor of it. */
  ghost predicate Above(d: Device, r: Device)
    decreases r.depth
  {
    d == r || (r.parent != null && r.parent.depth < r.depth && Above(d, r.parent))
  }

  lemma {:induction false} AboveParent(d: Device, c: Device, r: Device)
    requires c.parent == d && d.depth < c.depth && Above(c, r)
    ensures Above(d, r)
    decreases r.depth
  {
    if c != r {
      AboveParent(d, c, r.parent);
    }
  }

  lemma {:induction false} AncestorsLive(live: set<Device>, refs: multiset<Device>, d: Device, r: Device)
    requires Closed(live, refs) && r in live && Above(d, r)
    ensures d in live
    decreases r.depth
  {
    if d != r {
      AncestorsLive(live, refs, d, r.parent);
    }
  }

  ghost function Below(live: set<Device>, d: Device): set<Device> {
    set e | e in live && e.depth > d.depth
  }

  lemma {:induction false} HeldBelow(live: set<Device>, refs: multiset<Device>, d: Device) returns (r: Device)
    requires Closed(live, refs) && d in live
    ensures r in refs && Above(d, r)
    decreases Below(live, d)
  {
    if d in refs {
      r := d;
    } else {
      assert Children(live, d) != {} by {
        assert Count(live, refs, d) > 0;
      }
      var c :| c in Children(live, d);
      assert c in Below(live, d) && c !in Below(live, c) && Below(live, c) <= Below(live, d);
      r := HeldBelow(live, refs, c);
      AboveParent(d, c, r);
    }
  }

  /** A device is alive exactly when it, or a device below it, is referred to from outside the device tree. */
  lemma {:induction false} AliveIff(live: set<Device>, refs: multiset<Device>, d: Device)
    requires Closed(live, refs)
    ensures d in live <==> exists r :: r in refs && Above(d, r)
  {
    if d in live {
      var r := HeldBelow(live, refs, d);
    }
    forall r | r in refs && Above(d, r) ensures d in live {
      AncestorsLive(live, refs, d, r);
    }
  }

  ghost function CountMap(live: set<Device>, refs: multiset<Device>): map<Device, int> {
    map d | d in live :: Count(live, refs, d)
  }

  /** So the references decide which devices are alive, and every count. */
  lemma {:induction false} ReferencesDecide(live: set<Device>, live': set<Device>, refs: multiset<Device>)
    requires Closed(live, refs) && Closed(live', refs)
    ensures live == live' && CountMap(live, refs) == CountMap(live', refs)
  {
    forall d ensures d in live <==> d in live' {
      AliveIff(live, refs, d);
      AliveIff(live', refs, d);
    }
  }

  /** Giving up one of several references. */
  lemma {:induction false} DropOne(live: set<Device>, refs: multiset<Device>, d: Device)
    requires Closed(live, refs) && d in refs && Count(live, refs, d) > 1
    ensures Closed(live, refs - multiset{d}) && Count(live, refs - multiset{d}, d) == Count(live, refs, d) - 1
    ensures forall x :: x in live && x != d ==> Count(live, refs - multiset{d}, x) == Count(live, refs, x)
  {
  }

  lemma {:induction false} TakeOne(live: set<Device>, refs: multiset<Device>, d: Device)
    requires Closed(live, refs) && d in live
    ensures Closed(live, refs + multiset{d}) && Count(live, refs + multiset{d}, d) == Count(live, refs, d) + 1
    ensures forall x :: x in live && x != d ==> Count(live, refs + multiset{d}, x) == Count(live, refs, x)
  {
  }

  ghost function Parent(d: Device): multiset<Device> {
    if d.parent == null then multiset{} else multiset{d.parent}
  }

  /** A device given up by its last holder leaves the reference it had to its parent to be given up in turn. */
  lemma {:induction false} DropLast(live: set<Device>, refs: multiset<Device>, d: Device)
    requires Closed(live, refs) && d in refs && Count(live, refs, d) == 1
    ensures Closed(live - {d}, refs - multiset{d} + Parent(d))
    ensures forall x :: x in live - {d} ==> Count(live - {d}, refs - multiset{d} + Parent(d), x) == Count(live, refs, x)
  {
    var refs' := refs - multiset{d} + Parent(d);
    assert Children(live, d) == {} && refs[d] == 1;
    forall x | x in live - {d} ensures Count(live - {d}, refs', x) == Count(live, refs, x) {
      if x == d.parent {
        assert Children(live - {d}, x) == Children(live, x) - {d} && d in Children(live, x);
      } else {
        assert Children(live - {d}, x) == Children(live, x);
      }
    }
  }

  /** A new device takes over a reference to its parent. */
  lemma {:induction false} AddDevice(live: set<Device>, refs: multiset<Device>, d: Device)
    requires Closed(live, refs) && d !in live && Parent(d) <= refs && (d.parent != null ==> d.parent.depth < d.depth)
    ensures Closed(live + {d}, refs - Parent(d) + multiset{d})
    ensures Count(live + {d}, refs - Parent(d) + multiset{d}, d) == 1
    ensures forall x :: x in live ==> Count(live + {d}, refs - Parent(d) + multiset{d}, x) == Count(live, refs, x)
  {
    var live', refs' := live + {d}, refs - Parent(d) + multiset{d};
    assert Children(live', d) == {};
    forall x | x in live ensures Count(live', refs', x) == Count(live, refs, x) {
      if x == d.parent {
        assert Children(live', x) == Children(live, x) + {d} && d !in Children(live, x);
      } else {
        assert Children(live', x) == Children(live, x);
      }
    }
    forall x | x in live' ensures Count(live', refs', x) > 0
      && (x.parent != null ==> x.parent in live' && x.parent.depth < x.depth) {
    }
  }

  /** The devices that handles and transfers refer to. */
  ghost function Devs(handles: seq<Handle>): multiset<Device> {
    if handles == [] then multiset{} else multiset{handles[0].dev} + Devs(handles[1..])
  }

  ghost function One(d: Option<Device>): multiset<Device> {
    if d == None then multiset{} else multiset{d.value}
  }

  ghost function Owned(transfers: seq<Option<Device>>): multiset<Device> {
    if transfers == [] then multiset{} else One(transfers[0]) + Owned(transfers[1..])
  }

  lemma {:induction false} OwnedFirst(transfers: seq<Option<Device>>)
    requires transfers != []
    ensures Owned(transfers) == One(transfers[0]) + Owned(transfers[1..])
  {
  }

  lemma {:induction false} Exchange(first: multiset<Device>, rest: multiset<Device>, out: multiset<Device>,
        into: multiset<Device>)
    requires out <= rest
    ensures first + (rest - out + into) == first + rest - out + into && out <= first + rest
  {
  }

  lemma {:induction false} ExchangeFirst(out: multiset<Device>, rest: multiset<Device>, into: multiset<Device>)
    ensures into + rest == out + rest - out + into && out <= out + rest
  {
  }

  lemma {:induction false} OwnedUpdate(transfers: seq<Option<Device>>, t: nat, d: Option<Device>)
    requires t < |transfers|
    ensures One(transfers[t]) <= Owned(transfers)
    ensures Owned(transfers[t := d]) == Owned(transfers) - One(transfers[t]) + One(d)
  {
    hide *;
    OwnedFirst(transfers);
    OwnedFirst(transfers[t := d]);
    if t > 0 {
      assert transfers[1..][t - 1] == transfers[t] && transfers[t := d][0] == transfers[0];
      assert transfers[t := d][1..] == transfers[1..][t - 1 := d];
      OwnedUpdate(transfers[1..], t - 1, d);
      Exchange(One(transfers[0]), Owned(transfers[1..]), One(transfers[t]), One(d));
    } else {
      assert transfers[t := d][1..] == transfers[1..];
      ExchangeFirst(One(transfers[0]), Owned(transfers[1..]), One(d));
    }
  }

  lemma {:induction false} DevsWithout(handles: seq<Handle>, h: Handle)
    requires Distinct(handles) && h in handles
    ensures h.dev in Devs(handles) && Devs(Without(handles, {h})) == Devs(handles) - multiset{h.dev}
  {
    if handles[0] == h {
      NoneIsAllWithout(handles[1..], {h});
      assert Without(handles, {h}) == handles[1..];
    } else {
      DevsWithout(handles[1..], h);
    }
  }

  lemma {:induction false} MultisetWithout<T>(s: seq<T>, x: T)
    requires Distinct(s) && x in s
    ensures multiset(Without(s, {x})) == multiset(s) - multiset{x}
  {
    assert s == [s[0]] + s[1..];
    if s[0] == x {
      NoneIsAllWithout(s[1..], {x});
    } else {
      MultisetWithout(s[1..], x);
    }
  }

  lemma {:induction false} SetWithout(s: seq<Device>, d: Device)
    ensures (set x | x in Without(s, {d})) == (set x | x in s) - {d}
  {
    if s != [] {
      SetWithout(s[1..], d);
      assert (set x | x in s) == {s[0]} + (set x | x in s[1..]);
      var kept := if s[0] == d then [] else [s[0]];
      assert (set x | x in kept + Without(s[1..], {d})) == (set x | x in kept) + (set x | x in Without(s[1..], {d}));
    }
  }

  lemma {:induction false} WithoutKeepsDistinct<T>(s: seq<T>, S: set<T>)
    requires Distinct(s)
    ensures Distinct(Without(s, S))
  {
    if s != [] {
      WithoutKeepsDistinct(s[1..], S);
      Members(s[1..], S);
    }
  }

  /** A reference given up is one of several or the last. */
  lemma {:induction false} LastOrNot(live: set<Device>, refs: multiset<Device>, d: Device)
    requires Closed(live, refs) && (d in refs || d in live)
    ensures d in live && Count(live, refs, d) > 0
    ensures d.parent != null ==> d.parent.depth < d.depth && d.parent in live && d.parent != d
  {
  }

  /** The references of handles, transfers, waiting messages and the list of devices. A backend without
      hotplug support has its devices listed without a reference. */
  ghost function KeptBy(hasHotplug: bool, usbDevs: seq<Device>, openDevs: seq<Handle>, leaving: seq<Device>,
        transfers: seq<Option<Device>>): multiset<Device> {
    Devs(openDevs) + Owned(transfers) + (if hasHotplug then multiset(usbDevs) + multiset(leaving) else multiset{})
  }

  /** A backend without hotplug support has exactly the devices that exist on the list. */
  ghost predicate Tidy(hasHotplug: bool, usbDevs: seq<Device>, openDevs: seq<Handle>, leaving: seq<Device>,
        live: set<Device>, dying: set<Device>) {
    && Distinct(usbDevs) && Distinct(openDevs) && dying !! live
    && (!hasHotplug ==> leaving == [] && (set d | d in usbDevs) == live + dying)
  }

  lemma {:induction false} Moved(hasHotplug: bool, usbDevs: seq<Device>, openDevs: seq<Handle>, leaving: seq<Device>,
        live: set<Device>, dying: set<Device>, d: Device)
    requires Tidy(hasHotplug, usbDevs, openDevs, leaving, live, dying) && d in live
    ensures Tidy(hasHotplug, usbDevs, openDevs, leaving, live - {d}, dying + {d}) && d !in dying
  {
    hide Distinct;
    assert (live - {d}) + (dying + {d}) == live + dying;
  }

  lemma {:induction false} HandleAdded(hot: bool, usbDevs: seq<Device>, openDevs: seq<Handle>, leaving: seq<Device>,
        transfers: seq<Option<Device>>, live: set<Device>, dying: set<Device>, held: multiset<Device>, h: Handle)
    requires Tidy(hot, usbDevs, openDevs, leaving, live, dying) && h !in openDevs
    ensures Tidy(hot, usbDevs, [h] + openDevs, leaving, live, dying)
    ensures held + KeptBy(hot, usbDevs, [h] + openDevs, leaving, transfers) ==
            held + multiset{h.dev} + KeptBy(hot, usbDevs, openDevs, leaving, transfers)
  {
    hide Owned;
    assert ([h] + openDevs)[1..] == openDevs;
  }

  lemma {:induction false} HandleRemoved(hot: bool, usbDevs: seq<Device>, openDevs: seq<Handle>, leaving: seq<Device>,
        transfers: seq<Option<Device>>, live: set<Device>, dying: set<Device>, held: multiset<Device>, h: Handle)
    requires Tidy(hot, usbDevs, openDevs, leaving, live, dying) && h in openDevs
    ensures Tidy(hot, usbDevs, Without(openDevs, {h}), leaving, live, dying)
    ensures held + multiset{h.dev} + KeptBy(hot, usbDevs, Without(openDevs, {h}), leaving, transfers) ==
            held + KeptBy(hot, usbDevs, openDevs, leaving, transfers)
  {
    hide Owned, Devs, Distinct, Without;
    DevsWithout(openDevs, h);
    WithoutKeepsDistinct(openDevs, {h});
  }

  lemma {:induction false} DevTaken(hot: bool, usbDevs: seq<Device>, openDevs: seq<Handle>, leaving: seq<Device>,
        transfers: seq<Option<Device>>, held: multiset<Device>, t: nat)
    requires t < |transfers| && transfers[t].Some?
    ensures held + multiset{transfers[t].value} + KeptBy(hot, usbDevs, openDevs, leaving, transfers[t := None]) ==
            held + KeptBy(hot, usbDevs, openDevs, leaving, transfers)
  {
    hide Owned, Devs;
    OwnedUpdate(transfers, t, None);
  }

  lemma {:induction false} DevGiven(hot: bool, usbDevs: seq<Device>, openDevs: seq<Handle>, leaving: seq<Device>,
        transfers: seq<Option<Device>>, held: multiset<Device>, t: nat, d: Device)
    requires t < |transfers| && transfers[t] == None
    ensures held + KeptBy(hot, usbDevs, openDevs, leaving, transfers[t := Some(d)]) ==
            held + multiset{d} + KeptBy(hot, usbDevs, openDevs, leaving, transfers)
  {
    hide Owned, Devs;
    OwnedUpdate(transfers, t, Some(d));
  }

  lemma {:induction false} OwnedMore(transfers: seq<Option<Device>>)
    ensures Owned(transfers + [None]) == Owned(transfers)
  {
    if transfers == [] {
      assert (transfers + [None])[1..] == [];
    } else {
      assert (transfers + [None])[1..] == transfers[1..] + [None];
      OwnedMore(transfers[1..]);
    }
  }

  lemma {:induction false} MoreTransfers(hot: bool, usbDevs: seq<Device>, openDevs: seq<Handle>, leaving: seq<Device>,
        transfers: seq<Option<Device>>)
    ensures KeptBy(hot, usbDevs, openDevs, leaving, transfers + [None])
            == KeptBy(hot, usbDevs, openDevs, leaving, transfers)
  {
    OwnedMore(transfers);
  }

  lemma {:induction false} DevsHas(handles: seq<Handle>, h: Handle)
    requires h in handles
    ensures h.dev in Devs(handles)
  {
    if handles[0] != h {
      DevsHas(handles[1..], h);
    }
  }

  lemma {:induction false} Listed(usbDevs: seq<Device>, openDevs: seq<Handle>, leaving: seq<Device>,
        transfers: seq<Option<Device>>, live: set<Device>, dying: set<Device>, held: multiset<Device>, d: Device)
    requires Tidy(true, usbDevs, openDevs, leaving, live, dying) && d !in usbDevs && d in held
    ensures Tidy(true, [d] + usbDevs, openDevs, leaving, live, dying)
    ensures held - multiset{d} + KeptBy(true, [d] + usbDevs, openDevs, leaving, transfers) ==
            held + KeptBy(true, usbDevs, openDevs, leaving, transfers)
  {
    hide Owned, Devs;
  }

  lemma {:induction false} Unlisted(usbDevs: seq<Device>, openDevs: seq<Handle>, leaving: seq<Device>,
        transfers: seq<Option<Device>>, live: set<Device>, dying: set<Device>, d: Device)
    requires Tidy(true, usbDevs, openDevs, leaving, live, dying) && d in usbDevs
    ensures Tidy(true, Without(usbDevs, {d}), openDevs, leaving + [d], live, dying)
    ensures KeptBy(true, Without(usbDevs, {d}), openDevs, leaving + [d], transfers) ==
            KeptBy(true, usbDevs, openDevs, leaving, transfers)
  {
    hide Owned, Devs, Distinct, Without;
    MultisetWithout(usbDevs, d);
    WithoutKeepsDistinct(usbDevs, {d});
  }

  lemma {:induction false} MessageTaken(usbDevs: seq<Device>, openDevs: seq<Handle>, leaving: seq<Device>,
        transfers: seq<Option<Device>>, live: set<Device>, dying: set<Device>, held: multiset<Device>)
    requires Tidy(true, usbDevs, openDevs, leaving, live, dying) && leaving != []
    ensures Tidy(true, usbDevs, openDevs, leaving[1..], live, dying)
    ensures held + multiset{leaving[0]} + KeptBy(true, usbDevs, openDevs, leaving[1..], transfers) ==
            held + KeptBy(true, usbDevs, openDevs, leaving, transfers)
  {
    hide Owned, Devs, Distinct;
    assert leaving == [leaving[0]] + leaving[1..];
  }

  lemma {:induction false} Detached(hot: bool, usbDevs: seq<Device>, openDevs: seq<Handle>, leaving: seq<Device>,
        transfers: seq<Option<Device>>, live: set<Device>, dying: set<Device>, d: Device)
    requires Tidy(hot, usbDevs, openDevs, leaving, live, dying) && d in dying
    ensures var listed := if hot then usbDevs else Without(usbDevs, {d});
      && Tidy(hot, listed, openDevs, leaving, live, dying - {d})
      && KeptBy(hot, listed, openDevs, leaving, transfers) == KeptBy(hot, usbDevs, openDevs, leaving, transfers)
  {
    hide Owned, Devs, Distinct, Without;
    WithoutKeepsDistinct(usbDevs, {d});
    SetWithout(usbDevs, d);
    assert live + (dying - {d}) == live + dying - {d};
  }

  lemma {:induction false} Swapped(held: multiset<Device>, kept: multiset<Device>, out: multiset<Device>,
        into: multiset<Device>)
    requires out <= held
    ensures held - out + into + kept == (held + kept) - out + into
  {
  }

  lemma {:induction false} AlsoKept(hot: bool, usbDevs: seq<Device>, openDevs: seq<Handle>, leaving: seq<Device>,
        transfers: seq<Option<Device>>, d: Device)
    ensures KeptBy(hot, if hot then usbDevs else [d] + usbDevs, openDevs, leaving, transfers) ==
            KeptBy(hot, usbDevs, openDevs, leaving, transfers)
  {
  }

  lemma {:induction false} AlsoListed(hot: bool, usbDevs: seq<Device>, openDevs: seq<Handle>, leaving: seq<Device>,
        live: set<Device>, dying: set<Device>, d: Device)
    requires Tidy(hot, usbDevs, openDevs, leaving, live, dying) && d !in live && d !in dying
    ensures Tidy(hot, if hot then usbDevs else [d] + usbDevs, openDevs, leaving, live + {d}, dying)
  {
    if !hot {
      assert d !in usbDevs by { assert d !in (set x | x in usbDevs); }
      assert (set x | x in [d] + usbDevs) == (set x | x in usbDevs) + {d};
    }
  }

  lemma {:induction false} NoParent(dev: Device)
    ensures dev.parent == null ==> Parent(dev) == multiset{}
    ensures dev.parent != null ==> Parent(dev) == multiset{dev.parent}
  {
  }

  lemma {:induction false} Created(hot: bool, usbDevs: seq<Device>, openDevs: seq<Handle>, leaving: seq<Device>,
        transfers: seq<Option<Device>>, live: set<Device>, dying: set<Device>, held: multiset<Device>,
        refs: multiset<Device>, d: Device)
    requires Tidy(hot, usbDevs, openDevs, leaving, live, dying) && d !in live && d !in dying
    requires d.parent != null ==> d.parent in held
    requires refs == held + KeptBy(hot, usbDevs, openDevs, leaving, transfers)
    requires Closed(live, refs) && (d.parent != null ==> d.parent.depth < d.depth)
    ensures var listed, refs' := if hot then usbDevs else [d] + usbDevs, refs - Parent(d) + multiset{d};
      && Tidy(hot, listed, openDevs, leaving, live + {d}, dying)
      && KeptBy(hot, listed, openDevs, leaving, transfers) == KeptBy(hot, usbDevs, openDevs, leaving, transfers)
      && refs' == held - Parent(d) + multiset{d} + KeptBy(hot, listed, openDevs, leaving, transfers)
      && Closed(live + {d}, refs') && Count(live + {d}, refs', d) == 1
      && (forall x :: x in live ==> Count(live + {d}, refs', x) == Count(live, refs, x))
  {
    hide Tidy, KeptBy, Closed, Count, Parent;
    assert Parent(d) <= held && Parent(d) <= refs by { NoParent(d); }
    AddDevice(live, refs, d);
    AlsoListed(hot, usbDevs, openDevs, leaving, live, dying, d);
    AlsoKept(hot, usbDevs, openDevs, leaving, transfers, d);
    Swapped(held, KeptBy(hot, usbDevs, openDevs, leaving, transfers), Parent(d), multiset{d});
  }

  lemma {:induction false} StillReferred(held: multiset<Device>, kept: multiset<Device>, d: Device,
        parent: multiset<Device>)
    requires d in held
    ensures (held - multiset{d} + parent) + kept == (held + kept) - multiset{d} + parent
    ensures (held - multiset{d}) + kept == (held + kept) - multiset{d}
  {
  }

  /** The devices that died, each once. */
  ghost predicate Destroyed(gone: seq<Device>, live: set<Device>, live': set<Device>) {
    (set d | d in gone) == live - live' && Distinct(gone)
  }

  /** Each device in the list is the parent of the next, and `dev` is the last. */
  ghost predicate ParentsFirst(gone: seq<Device>, dev: Device) {
    && (gone != [] ==> gone[|gone| - 1] == dev)
    && forall i, j :: 0 <= i && j == i + 1 && j < |gone| ==> gone[j].parent == gone[i]
  }

  lemma {:induction false} NoneDestroyed(live: set<Device>, dev: Device)
    ensures Destroyed([], live, live) && ParentsFirst([], dev)
  {
  }

  lemma {:induction false} AlsoDead(live: set<Device>, dev: Device, gone: seq<Device>, live': set<Device>)
    requires dev in live && Destroyed(gone, live - {dev} + {dev}, live')
    ensures Destroyed(gone, live, live')
  {
    assert live - {dev} + {dev} == live;
  }

  lemma {:induction false} AlsoDestroyed(gone: seq<Device>, dev: Device, live: set<Device>, live': set<Device>)
    requires dev !in live && live' <= live
    requires if dev.parent == null then gone == [] && live' == live
             else Destroyed(gone, live, live') && ParentsFirst(gone, dev.parent)
    ensures Destroyed(gone + [dev], live + {dev}, live') && ParentsFirst(gone + [dev], dev)
  {
    if gone == [] {
      assert (set d | d in [dev]) == {dev} && [] + [dev] == [dev];
    } else {
      assert (set d | d in gone + [dev]) == (set d | d in gone) + {dev};
      assert forall i :: 0 <= i < |gone| ==> gone[i] in (set d | d in gone);
    }
  }

  /** The references a collection holds; a collection that could not grow is gone. */
  ghost function Collected(found: Option<DiscoveredDevs>): multiset<Device> {
    if found.Some? then multiset(found.value.devices) else multiset{}
  }

  lemma {:induction false} CollectedIs(found: Option<DiscoveredDevs>)
    ensures Collected(found) == multiset(if found.Some? then found.value.devices else [])
  {
  }

  lemma {:induction false} NothingYet(found: DiscoveredDevs, held: multiset<Device>)
    requires found.devices == []
    ensures Collected(Some(found)) == multiset{} && held == held + Collected(Some(found))
  {
  }

  lemma {:induction false} ApartFrom(devs: seq<Device>, held: multiset<Device>)
    requires multiset(devs) <= held
    ensures held == (held - multiset(devs)) + multiset(devs)
  {
  }

  lemma {:induction false} OneCollected(devs: seq<Device>, dev: Device, held: multiset<Device>)
    ensures held + multiset(devs) + multiset{dev} == held + multiset(devs + [dev])
    ensures held + multiset(devs) - multiset(devs) == held + multiset([]) && multiset(devs) <= held + multiset(devs)
  {
  }

  lemma {:induction false} OneMore(devs: seq<Device>, dev: Device, held: multiset<Device>)
    ensures held + multiset(devs) + multiset{dev} + multiset{dev} - multiset{dev} == held + multiset(devs + [dev])
    ensures held + multiset(devs) + multiset{dev} - multiset(devs) - multiset{dev} == held + multiset([])
  {
  }

  lemma {:induction false} Same(held: multiset<Device>, kept: multiset<Device>, d: Device)
    ensures held + multiset{d} - multiset{d} == held
    ensures held + multiset{d} - multiset{d} + kept == held + kept == held + multiset{d} + kept - multiset{d}
  {
  }

  lemma {:induction false} Round(transfers: seq<Option<Device>>, t: nat, d: Device, refs: multiset<Device>)
    requires t < |transfers| && transfers[t] == None
    ensures transfers[t := Some(d)][t := None] == transfers && transfers[t := Some(d)][t] == Some(d)
    ensures refs - One(transfers[t]) + multiset{d} - One(Some(d)) == refs
  {
  }

  lemma {:induction false} Later(held: multiset<Device>, kept: multiset<Device>, others: multiset<Device>, d: Device)
    requires held == others + multiset{d}
    ensures held + kept == others + kept + multiset{d}
  {
  }

  lemma {:induction false} OneOf(d: Option<Device>, refs: multiset<Device>)
    ensures refs - One(d) == if d.Some? then refs - multiset{d.value} else refs
  {
  }

  lemma {:induction false} ListBack(held: multiset<Device>, list: seq<Device>)
    ensures held + multiset(list) - multiset(list) == held && multiset(list) <= held + multiset(list)
    ensures list == [] ==> held + multiset(list) == held
  {
  }

  lemma {:induction false} WithoutNew(handles: seq<Handle>, h: Handle, others: seq<Handle>)
    requires handles == [h] + others && h !in others
    ensures Without(handles, {h}) == others && h in handles
  {
    NoneIsAllWithout(others, {h});
    assert handles[1..] == others;
  }

  /** No open handle is at this address. */
  ghost predicate Fresh(handles: seq<Handle>, id: nat) {
    forall h :: h in handles ==> h.id != id
  }

  lemma {:induction false} NotOpen(handles: seq<Handle>, id: nat, dev: Device)
    requires Fresh(handles, id)
    ensures Handle(id, dev) !in handles
  {
  }

  /** The first `i` of the devices have been let go of; the references `others` stay. */
  ghost predicate Taken(devs: seq<Device>, i: nat, others: multiset<Device>, held: multiset<Device>) {
    i <= |devs| && held == others + multiset(devs[i..])
  }

  lemma {:induction false} TakenNone(devs: seq<Device>, others: multiset<Device>)
    ensures Taken(devs, 0, others, others + multiset(devs))
  {
    assert devs[0..] == devs;
  }

  lemma {:induction false} TakenOne(devs: seq<Device>, i: nat, others: multiset<Device>, held: multiset<Device>)
    requires i < |devs| && Taken(devs, i, others, held)
    ensures devs[i] in held && Taken(devs, i + 1, others, held - multiset{devs[i]})
  {
    assert devs[i..] == [devs[i]] + devs[i + 1..];
  }

  lemma {:induction false} TakenAll(devs: seq<Device>, others: multiset<Device>, held: multiset<Device>)
    requires Taken(devs, |devs|, others, held)
    ensures held == others
  {
  }
}
