/** Hotplug callbacks: registration, deregistration, and the dispatch of messages to them, which walks the
    list of callbacks with the lock released around every callback. */
module Hotplug {
  import opened IntrusiveList
  import opened Sequences

  datatype Event = DEVICE_ARRIVED | DEVICE_LEFT

  datatype Device = Device(idVendor: nat, idProduct: nat, bDeviceClass: nat)

  datatype Message = Message(event: Event, device: Device)

  /** A registered callback; `id` stands for its address. None in a filter is LIBUSB_HOTPLUG_MATCH_ANY. */
  datatype Callback = Callback(id: nat, handle: int, events: set<Event>,
                               vendor: Option<nat>, product: Option<nat>, devClass: Option<nat>)

  /** A call the dispatcher made; `finished` is set when the callback returned a value other than 0. */
  datatype Call = Call(msg: Message, cb: Callback, finished: bool)

  predicate Accepts(filter: Option<nat>, value: nat) {
    filter == None || filter == Some(value)
  }

  /** The filters of usbi_hotplug_match_cb. */
  predicate Matches(cb: Callback, msg: Message) {
    && msg.event in cb.events
    && Accepts(cb.vendor, msg.device.idVendor)
    && Accepts(cb.product, msg.device.idProduct)
    && Accepts(cb.devClass, msg.device.bDeviceClass)
  }

  ghost function Calls(msg: Message, cbs: seq<Callback>, gone: set<Callback>): (cs: seq<Call>)
    ensures |cs| == |cbs| && forall i :: 0 <= i < |cs| ==> cs[i] == Call(msg, cbs[i], cbs[i] in gone)
  {
    seq(|cbs|, i requires 0 <= i < |cbs| => Call(msg, cbs[i], cbs[i] in gone))
  }

  /** The entry after `cb`, None at the end of the list. */
  function After(cbs: seq<Callback>, cb: Callback): Option<Callback>
    requires cb in cbs
  {
    if cbs[0] != cb then After(cbs[1..], cb) else if |cbs| > 1 then Some(cbs[1]) else None
  }

  lemma {:induction false} AfterAt(cbs: seq<Callback>, k: nat)
    requires Distinct(cbs) && k < |cbs|
    ensures After(cbs, cbs[k]) == if k + 1 < |cbs| then Some(cbs[k + 1]) else None
  {
    if k > 0 {
      assert cbs[1..][k - 1] == cbs[k];
      AfterAt(cbs[1..], k - 1);
    }
  }

  /** The entry saved as the next one really is the next. */
  lemma {:induction false} NextAt(cbs: seq<Callback>, passed: seq<Callback>, rest: seq<Callback>)
    requires Distinct(cbs) && cbs == passed + rest && rest != []
    ensures rest[0] in cbs && rest[0] !in passed && rest[0] !in rest[1..]
    ensures After(cbs, rest[0]) == if |rest| > 1 then Some(rest[1]) else None
    ensures |rest| > 1 ==> rest[1] in cbs
  {
    var k := |passed|;
    assert cbs[k] == rest[0];
    AfterAt(cbs, k);
    assert forall i :: 0 <= i < |passed| ==> passed[i] == cbs[i];
    assert forall i :: 1 <= i < |rest| ==> rest[i] == cbs[k + i];
    assert |rest| > 1 ==> cbs[k + 1] == rest[1];
  }

  lemma {:induction false} StaysDistinct(front: seq<Callback>, x: Callback, back: seq<Callback>)
    requires Distinct(front + [x] + back)
    ensures Distinct(front + back) && x !in front && x !in back
  {
    var s := front + [x] + back;
    RemovedAt(s, |front|, front + back);
    assert s[|front|] == x;
    assert forall i :: 0 <= i < |back| ==> back[i] == s[|front| + 1 + i];
    assert forall i :: 0 <= i < |front| ==> front[i] == s[i];
  }

  /** Every callback in `cbs` was registered when `born` addresses had been given out, or later. */
  ghost predicate Newer(cbs: seq<Callback>, born: nat) {
    forall cb :: cb in cbs ==> born <= cb.id
  }

  lemma {:induction false} NewerNone(born: nat)
    ensures Newer([], born)
  {
  }

  lemma {:induction false} StillNewer(more: seq<Callback>, front: seq<Callback>, born: nat, later: nat)
    requires Newer(more, later) && born <= later && Newer(front, born)
    ensures Newer(more + front, born)
  {
  }

  /** One message's walk: the list, flags and address counter at its start, who was called, found flagged,
      and removed, and who was registered meanwhile. */
  datatype Pass = Pass(msg: Message, cbs: seq<Callback>, flagged: set<Callback>, born: nat, offered: set<Callback>,
                       spared: set<Callback>, gone: set<Callback>, front: seq<Callback>)
  {
    /** On the list, exactly the callbacks that match are called, save those found flagged in their turn. */
    ghost predicate Fair() {
      && Distinct(cbs) && gone <= offered
      && forall cb :: cb in cbs ==>
        cb.id < born && (cb in offered <==> Matches(cb, msg) && cb !in spared) && (cb in flagged ==> cb in spared)
    }

    ghost predicate LeadsTo(cbs': seq<Callback>, flagged': set<Callback>, born': nat) {
      && cbs' == front + Without(cbs, gone) && Newer(front, born) && born <= born' && flagged <= flagged'
      && forall cb :: cb in cbs && cb in spared ==> cb in flagged'
    }

    /** The calls made: one for each callback offered the message, in list order. */
    ghost function Made(): seq<Call> {
      Calls(msg, Only(cbs, offered), gone)
    }
  }

  /** One pass for each message, in order. */
  ghost predicate Answers(passes: seq<Pass>, msgs: seq<Message>) {
    |passes| == |msgs| && forall i :: 0 <= i < |msgs| ==> passes[i].msg == msgs[i]
  }

  ghost predicate Chained(passes: seq<Pass>) {
    && (forall i :: 0 <= i < |passes| ==> passes[i].Fair())
    && forall i, j :: 0 <= i && j == i + 1 && j < |passes| ==>
       passes[i].LeadsTo(passes[j].cbs, passes[j].flagged, passes[j].born)
  }

  /** The passes take the first state to the second. */
  ghost predicate Reached(passes: seq<Pass>, cbs: seq<Callback>, flagged: set<Callback>, born: nat, cbs': seq<Callback>,
        flagged': set<Callback>, born': nat) {
    if passes == [] then cbs' == cbs && flagged' == flagged && born' == born else
    && passes[0].cbs == cbs && passes[0].flagged == flagged && passes[0].born == born
    && passes[|passes| - 1].LeadsTo(cbs', flagged', born')
  }

  ghost function Delivered(passes: seq<Pass>): seq<Call> {
    if passes == [] then [] else Delivered(passes[..|passes| - 1]) + passes[|passes| - 1].Made()
  }

  lemma {:induction false} Passed(passes: seq<Pass>, p: Pass, done: seq<Message>, cbs: seq<Callback>,
        flagged: set<Callback>, born: nat, cbs': seq<Callback>, flagged': set<Callback>, born': nat, before: seq<Call>)
    requires Chained(passes) && Reached(passes, cbs, flagged, born, p.cbs, p.flagged, p.born)
    requires p.Fair() && p.LeadsTo(cbs', flagged', born') && Answers(passes, done)
    ensures Answers(passes + [p], done + [p.msg])
    ensures Chained(passes + [p]) && Reached(passes + [p], cbs, flagged, born, cbs', flagged', born')
    ensures before + Delivered(passes + [p]) == before + Delivered(passes) + p.Made()
  {
    hide Pass.Fair, Pass.LeadsTo, Pass.Made;
    assert (passes + [p])[..|passes|] == passes;
  }

  ghost function Seen(all: seq<Callback>, k: nat): set<Callback>
    requires k <= |all|
  {
    set cb | cb in all[..k]
  }

  /** The callbacks before position k are accounted for. */
  ghost predicate Accounted(all: seq<Callback>, k: nat, msg: Message, offered: set<Callback>, spared: set<Callback>,
        was: set<Callback>, needsFree: set<Callback>)
    requires k <= |all|
  {
    && offered <= Seen(all, k) && spared <= Seen(all, k) && spared <= needsFree
    && forall cb :: cb in Seen(all, k) ==>
       (cb in offered <==> Matches(cb, msg) && cb !in spared) && (cb in was ==> cb in spared)
  }

  lemma {:induction false} Ahead(passed: seq<Callback>, all: seq<Callback>, k: nat)
    requires k < |all|
    ensures all[k..] == [all[k]] + all[k + 1..] && passed + all[k..] == passed + [all[k]] + all[k + 1..]
  {
  }

  lemma {:induction false} StaysAccounted(all: seq<Callback>, k: nat, msg: Message, offered: set<Callback>,
        spared: set<Callback>, was: set<Callback>, needsFree: set<Callback>, needsFree': set<Callback>)
    requires k <= |all| && Accounted(all, k, msg, offered, spared, was, needsFree) && needsFree <= needsFree'
    ensures Accounted(all, k, msg, offered, spared, was, needsFree')
  {
  }

  lemma {:induction false} Account(all: seq<Callback>, k: nat, msg: Message, offered: set<Callback>,
        offered': set<Callback>, spared: set<Callback>, spared': set<Callback>, was: set<Callback>,
        needsFree: set<Callback>, called: bool, flagged: bool)
    requires Distinct(all) && k < |all| && Accounted(all, k, msg, offered, spared, was, needsFree)
    requires (called <==> Matches(all[k], msg) && !flagged) && (all[k] in was ==> flagged)
    requires flagged ==> all[k] in needsFree
    requires offered' == if called then offered + {all[k]} else offered
    requires spared' == if flagged then spared + {all[k]} else spared
    ensures Accounted(all, k + 1, msg, offered', spared', was, needsFree) && offered' <= Seen(all, k + 1)
  {
    hide Matches;
    assert Seen(all, k + 1) == Seen(all, k) + {all[k]};
  }

  /** How far a walk over the callbacks `all` has got: at position k, with `front` registered since. */
  datatype Walk = Walk(all: seq<Callback>, k: nat, offered: set<Callback>, spared: set<Callback>, gone: set<Callback>,
                             front: seq<Callback>, was: set<Callback>, before: seq<Call>, born: nat)
  {
    ghost predicate Shaped(needsFree: set<Callback>, msg: Message) {
      && k <= |all| && Distinct(all) && was <= needsFree && Newer(front, born)
      && gone <= offered <= Seen(all, k)
      && Accounted(all, k, msg, offered, spared, was, needsFree)
    }

    /** The entries the walk has passed and that are still on the list, and those after the current one. */
    ghost function Passed(): seq<Callback>
      requires k <= |all|
    {
      front + Without(all[..k], gone)
    }

    ghost function Rest(): seq<Callback>
      requires k < |all|
    {
      all[k + 1..]
    }

    /** What is on the list, and the calls made, at this point of the walk. */
    ghost function OnList(): seq<Callback>
      requires k <= |all|
    {
      Passed() + all[k..]
    }

    ghost function Made(msg: Message): seq<Call>
      requires k <= |all|
    {
      before + Calls(msg, Only(all[..k], offered), gone)
    }

    /** One turn on. */
    ghost function Next(called: bool, removed: bool, flagged: bool, more: seq<Callback>): Walk
      requires k < |all|
    {
      Walk(all, k + 1, if called then offered + {all[k]} else offered, if flagged then spared + {all[k]} else spared,
           if removed then gone + {all[k]} else gone, more + front, was, before, born)
    }

    lemma {:induction false} Current()
      requires k < |all| && Distinct(OnList())
      ensures OnList() == Passed() + [all[k]] + Rest() && all[k] in OnList()
      ensures After(OnList(), all[k]) == if k + 1 < |all| then Some(all[k + 1]) else None
    {
      Ahead(Passed(), all, k);
      NextAt(OnList(), Passed(), all[k..]);
    }

    lemma {:induction false} Advanced(called: bool, removed: bool, flagged: bool, more: seq<Callback>, later: nat,
          msg: Message, needsFree: set<Callback>, needsFree': set<Callback>)
      requires k < |all| && Shaped(needsFree, msg) && needsFree <= needsFree' && born <= later && Newer(more, later)
      requires (called <==> Matches(all[k], msg) && !flagged) && (removed ==> called)
      requires flagged <==> all[k] in needsFree
      ensures Next(called, removed, flagged, more).Shaped(needsFree', msg)
    {
      hide Matches, Distinct;
      var w := Next(called, removed, flagged, more);
      StaysAccounted(all, k, msg, offered, spared, was, needsFree, needsFree');
      Account(all, k, msg, offered, w.offered, spared, w.spared, was, needsFree', called, flagged);
      StillNewer(more, front, born, later);
    }

    ghost predicate Same(w: Walk) {
      all == w.all && was == w.was && before == w.before && born == w.born
    }

    lemma {:induction false} SameAgain(w: Walk, start: Walk)
      requires Same(w) && w.Same(start)
      ensures Same(start)
    {
    }
  }

  /** The list when the sweep has passed k entries of `all`. */
  ghost function Swept(all: seq<Callback>, k: nat, flagged: set<Callback>): seq<Callback>
    requires k <= |all|
  {
    Without(all[..k], flagged) + all[k..]
  }

  lemma {:induction false} Start(all: seq<Callback>, flagged: set<Callback>)
    ensures Swept(all, 0, flagged) == all
  {
  }

  lemma {:induction false} SweptAll(all: seq<Callback>, flagged: set<Callback>)
    ensures Swept(all, |all|, flagged) == Without(all, flagged)
    ensures forall cb :: cb in Without(all, flagged) ==> cb !in flagged
  {
    assert all[..|all|] == all && all[|all|..] == [];
    Members(all, flagged);
  }

  lemma {:induction false} SweptAt(all: seq<Callback>, k: nat, flagged: set<Callback>)
    requires k < |all| && Distinct(Swept(all, k, flagged))
    ensures Swept(all, k, flagged) == Without(all[..k], flagged) + [all[k]] + all[k + 1..]
    ensures all[k] in Swept(all, k, flagged)
    ensures After(Swept(all, k, flagged), all[k]) == if k + 1 < |all| then Some(all[k + 1]) else None
    ensures Swept(all, k + 1, flagged) ==
            if all[k] in flagged then Without(all[..k], flagged) + all[k + 1..] else Swept(all, k, flagged)
  {
    Ahead(Without(all[..k], flagged), all, k);
    NextAt(Swept(all, k, flagged), Without(all[..k], flagged), all[k..]);
    assert all[..k + 1] == all[..k] + [all[k]];
    WithoutAppend(all[..k], all[k], flagged);
  }

  /** The devices that left: a message that a device left holds a reference to it. */
  function Released(msgs: seq<Message>): seq<Device> {
    if msgs == [] then [] else
    Released(msgs[..|msgs| - 1]) + if msgs[|msgs| - 1].event == DEVICE_LEFT then [msgs[|msgs| - 1].device] else []
  }

  lemma {:induction false} ReleasedOn(done: seq<Message>, msg: Message)
    ensures Released(done + [msg]) == if msg.event == DEVICE_LEFT then Released(done) + [msg.device] else Released(done)
  {
    assert (done + [msg])[..|done|] == done;
  }

  lemma {:induction false} NonePassed(cbs: seq<Callback>, flagged: set<Callback>, born: nat, before: seq<Call>)
    ensures Chained([]) && Answers([], []) && Reached([], cbs, flagged, born, cbs, flagged, born)
    ensures before + Delivered([]) == before && Released([]) == []
  {
  }

  lemma {:induction false} AllAccounted(all: seq<Callback>, msg: Message, offered: set<Callback>, spared: set<Callback>,
        was: set<Callback>, needsFree: set<Callback>)
    requires Accounted(all, |all|, msg, offered, spared, was, needsFree)
    ensures forall cb :: cb in all ==>
      (cb in offered <==> Matches(cb, msg) && cb !in spared) && (cb in was ==> cb in spared)
        && (cb in spared ==> cb in needsFree)
  {
    assert forall cb :: cb in all ==> cb in Seen(all, |all|) by { assert all[..|all|] == all; }
  }

  lemma {:induction false} Nothing(all: seq<Callback>, msg: Message, was: set<Callback>, born: nat)
    ensures Newer([], born)
    ensures Seen(all, 0) == {} && Accounted(all, 0, msg, {}, {}, was, was)
    ensures Without(all[..0], {}) == [] && Only(all[..0], {}) == [] && Calls(msg, [], {}) == []
  {
  }

  lemma {:induction false} CallsOn(msg: Message, cbs: seq<Callback>, cb: Callback, gone: set<Callback>,
        gone': set<Callback>, called: bool, before: seq<Call>)
    requires (forall c :: c in cbs ==> (c in gone <==> c in gone')) && (!called ==> gone == gone')
    ensures before + Calls(msg, cbs + (if called then [cb] else []), gone') ==
            if called then before + Calls(msg, cbs, gone) + [Call(msg, cb, cb in gone')]
              else before + Calls(msg, cbs, gone)
  {
    assert cbs + [] == cbs;
  }

  lemma {:induction false} TurnTaken(w: Walk, called: bool, removed: bool, flagged: bool, more: seq<Callback>,
        msg: Message)
    requires w.k < |w.all| && Distinct(w.all) && w.gone <= w.offered <= Seen(w.all, w.k) && (removed ==> called)
    ensures w.Next(called, removed, flagged, more).Made(msg) ==
            if called then w.Made(msg) + [Call(msg, w.all[w.k], removed)] else w.Made(msg)
  {
    hide Only, Calls;
    var w' := w.Next(called, removed, flagged, more);
    assert w.all[..w.k + 1] == w.all[..w.k] + [w.all[w.k]] && w.all[w.k] !in w.all[..w.k];
    OnlyMembersMatter(w.all[..w.k], w.offered, w'.offered);
    OnlyAppend(w.all[..w.k], w.all[w.k], w'.offered);
    Members(w.all[..w.k], w.offered);
    CallsOn(msg, Only(w.all[..w.k], w.offered), w.all[w.k], w.gone, w'.gone, called, w.before);
  }

  /** The list after a turn. */
  lemma {:induction false} TurnKept(w: Walk, called: bool, removed: bool, flagged: bool, more: seq<Callback>)
    requires w.k < |w.all| && Distinct(w.all) && w.gone <= Seen(w.all, w.k)
    ensures w.Next(called, removed, flagged, more).OnList() ==
            more + w.Passed() + (if removed then [] else [w.all[w.k]]) + w.Rest()
  {
    var w' := w.Next(called, removed, flagged, more);
    assert w.all[..w.k + 1] == w.all[..w.k] + [w.all[w.k]] && w.all[w.k] !in w.all[..w.k];
    OnlyMembersMatter(w.all[..w.k], w.gone, w'.gone);
    WithoutAppend(w.all[..w.k], w.all[w.k], w'.gone);
    var kept := if removed then [] else [w.all[w.k]];
    assert (more + w.front) + (Without(w.all[..w.k], w.gone) + kept)
           == more + (w.front + Without(w.all[..w.k], w.gone)) + kept;
  }

  /** Handles run from 1 to this and then round again. */
  const MAX_HANDLE := 0x7fff_ffff

  /** The handle of the callback registered when `id` others had been. */
  function HandleOf(id: nat): int {
    1 + id % MAX_HANDLE
  }

  lemma {:induction false} NextHandleOf(id: nat)
    ensures HandleOf(id + 1) == if HandleOf(id) < MAX_HANDLE then HandleOf(id) + 1 else 1
  {
  }

  ghost predicate NewestFirst(cbs: seq<Callback>) {
    forall i, j :: 0 <= i < j < |cbs| ==> cbs[j].id < cbs[i].id
  }

  ghost predicate Numbered(cbs: seq<Callback>, born: nat) {
    forall cb :: cb in cbs ==> cb.id < born && cb.handle == HandleOf(cb.id)
  }

  lemma {:induction false} RegisteredInOrder(cb: Callback, cbs: seq<Callback>, born: nat)
    requires NewestFirst(cbs) && Numbered(cbs, born) && cb.id == born && cb.handle == HandleOf(born)
    ensures NewestFirst([cb] + cbs) && Numbered([cb] + cbs, born + 1) && cb !in cbs
  {
    hide HandleOf;
    assert forall i :: 1 <= i < |[cb] + cbs| ==> ([cb] + cbs)[i] == cbs[i - 1] && cbs[i - 1] in cbs;
  }

  lemma {:induction false} UnlinkedInOrder(front: seq<Callback>, x: Callback, back: seq<Callback>, born: nat)
    requires NewestFirst(front + [x] + back) && Numbered(front + [x] + back, born)
    ensures NewestFirst(front + back) && Numbered(front + back, born)
  {
    hide HandleOf;
    var s, t := front + [x] + back, front + back;
    assert forall i :: 0 <= i < |t| ==> t[i] == s[if i < |front| then i else i + 1];
  }

  /** Another callback on the list was registered so many times later that the handles have come round. */
  ghost predicate HasNamesake(cbs: seq<Callback>, cb: Callback) {
    exists other :: other in cbs && cb.id < other.id && (other.id - cb.id) % MAX_HANDLE == 0
  }

  lemma {:induction false} SameHandleIff(id: nat, id': nat)
    requires id <= id'
    ensures HandleOf(id) == HandleOf(id') <==> (id' - id) % MAX_HANDLE == 0
  {
  }

  /** A handle finds the callback it was given out for, unless a newer one on the list has the same; there is none
      before the handles have come round. */
  lemma {:induction false} HandleFinds(cbs: seq<Callback>, born: nat, cb: Callback, k: nat)
    requires NewestFirst(cbs) && Numbered(cbs, born) && cb in cbs
    requires k < |cbs| && cbs[k].handle == cb.handle && forall j :: 0 <= j < k ==> cbs[j].handle != cb.handle
    ensures cbs[k] == cb <==> !HasNamesake(cbs, cb)
    ensures born - cb.id <= MAX_HANDLE ==> cbs[k] == cb
  {
    hide HandleOf;
    var i :| 0 <= i < |cbs| && cbs[i] == cb;
    if cbs[k] != cb {
      assert k < i && cbs[k] in cbs;
      SameHandleIff(cb.id, cbs[k].id);
    }
    if other :| other in cbs && cb.id < other.id && (other.id - cb.id) % MAX_HANDLE == 0 {
      var j :| 0 <= j < |cbs| && cbs[j] == other;
      SameHandleIff(cb.id, other.id);
      assert j < i && k <= j;
    }
  }

  class HotplugContext {
    var cbs: seq<Callback>
    // the callbacks flagged NEEDS_FREE
    var needsFree: set<Callback>
    var nextHandle: int
    // addresses given out so far
    var born: nat
    // the calls the dispatcher has made
    ghost var calls: seq<Call>

    ghost predicate Valid()
      reads this
    {
      Distinct(cbs) && NewestFirst(cbs) && Numbered(cbs, born) && nextHandle == HandleOf(born)
    }

    constructor ()
      ensures Valid() && cbs == [] && needsFree == {} && calls == []
    {
      cbs, needsFree, nextHandle, born, calls := [], {}, 1, 0, [];
    }

    /** The locked part of libusb_hotplug_register_callback: list_add puts the newest first. */
    method Register(events: set<Event>, vendor: Option<nat>, product: Option<nat>, devClass: Option<nat>)
      returns (cb: Callback)
      requires Valid()
      modifies `cbs, `nextHandle, `born
      ensures Valid() && cbs == [cb] + old(cbs) && cb !in old(cbs) && cb.handle == old(nextHandle)
      ensures cb.id == old(born) && born == old(born) + 1
      ensures nextHandle == if cb.handle < MAX_HANDLE then cb.handle + 1 else 1
      ensures forall msg :: Matches(cb, msg) <==>
        && msg.event in events && (vendor.None? || vendor.value == msg.device.idVendor)
        && (product.None? || product.value == msg.device.idProduct)
        && (devClass.None? || devClass.value == msg.device.bDeviceClass)
    {
      hide HandleOf, NewestFirst, Numbered;
      cb := Callback(born, nextHandle, events, vendor, product, devClass);
      NextHandleOf(born);
      RegisteredInOrder(cb, cbs, born);
      born := born + 1;
      // the handle wraps round before it would turn negative
      nextHandle := if nextHandle < MAX_HANDLE then nextHandle + 1 else 1;
      cbs := [cb] + cbs;
    }

    /** The locked part of libusb_hotplug_deregister_callback: the first callback with the handle is
        flagged, and stays on the list. */
    method Deregister(handle: int) returns (deregistered: bool, ghost k: nat)
      requires Valid()
      modifies `needsFree
      ensures k <= |cbs| && forall j :: 0 <= j < k ==> cbs[j].handle != handle
      ensures deregistered <==> k < |cbs|
      ensures deregistered ==> cbs[k].handle == handle && needsFree == old(needsFree) + {cbs[k]}
      ensures !deregistered ==> needsFree == old(needsFree)
      ensures forall cb :: cb in cbs && cb.handle == handle ==>
              deregistered && (cbs[k] == cb <==> !HasNamesake(cbs, cb)) && (born - cb.id <= MAX_HANDLE ==> cbs[k] == cb)
    {
      hide NewestFirst, Numbered, HasNamesake;
      k := 0;
      for i := 0 to |cbs|
        invariant k == i && forall j :: 0 <= j < i ==> cbs[j].handle != handle
      {
        if cbs[i].handle == handle {
          needsFree := needsFree + {cbs[i]};
          forall cb | cb in cbs && cb.handle == handle
            ensures (cbs[k] == cb <==> !HasNamesake(cbs, cb)) && (born - cb.id <= MAX_HANDLE ==> cbs[k] == cb)
          {
            HandleFinds(cbs, born, cb, k);
          }
          return true, k;
        }
        k := k + 1;
      }
      deregistered := false;
    }

    /** One thing another thread may do while hotplug_cbs_lock is free: register a callback, which puts it in
        front, or flag one. Nothing else takes entries off the list. */
    method OtherStep() returns (ghost front: seq<Callback>)
      requires Valid()
      modifies `cbs, `nextHandle, `born, `needsFree
      ensures Valid() && cbs == front + old(cbs) && old(needsFree) <= needsFree
      ensures Newer(front, old(born)) && old(born) <= born
    {
      if * {
        var events: set<Event>, vendor, product, devClass := *, *, *, *;
        var cb := Register(events, vendor, product, devClass);
        front := [cb];
      } else {
        var handle := *;
        var found, k := Deregister(handle);
        front := [];
      }
    }

    /** What other threads do while hotplug_cbs_lock is free. */
    method OthersRun() returns (ghost front: seq<Callback>)
      requires Valid()
      modifies `cbs, `nextHandle, `born, `needsFree
      ensures Valid() && cbs == front + old(cbs) && old(needsFree) <= needsFree
      ensures Newer(front, old(born)) && old(born) <= born
    {
      hide Valid, Newer;
      front := [];
      NewerNone(born);
      var rounds :| 0 <= rounds;
      for i := 0 to rounds
        invariant Valid() && cbs == front + old(cbs) && old(needsFree) <= needsFree
        invariant Newer(front, old(born)) && old(born) <= born
      {
        ghost var later := born;
        ghost var more := OtherStep();
        StillNewer(more, front, old(born), later);
        assert more + (front + old(cbs)) == more + front + old(cbs);
        front := more + front;
      }
    }

    /** The user's callback, without the lock; a result other than 0 asks for its removal. */
    method Invoke(cb: Callback, msg: Message) returns (r: int, ghost front: seq<Callback>)
      requires Valid()
      modifies this
      ensures Valid() && cbs == front + old(cbs) && old(needsFree) <= needsFree
      ensures Newer(front, old(born)) && old(born) <= born
      ensures calls == if Matches(cb, msg) then old(calls) + [Call(msg, cb, r != 0)] else old(calls)
      ensures !Matches(cb, msg) ==> r == 0
    {
      r := 0;
      if Matches(cb, msg) {
        r := *;
        calls := calls + [Call(msg, cb, r != 0)];
      }
      front := OthersRun();
    }

    method Unlink(cb: Callback, ghost front: seq<Callback>, ghost back: seq<Callback>)
      requires Valid() && cbs == front + [cb] + back
      modifies `cbs
      ensures Valid() && cbs == front + back
    {
      StaysDistinct(front, cb, back);
      UnlinkedInOrder(front, cb, back, born);
      WithoutOne(front, cb, back);
      cbs := Without(cbs, {cb});
    }

    /** One callback's turn in the walk of usbi_hotplug_process, at the head of `rest`. */
    method Turn(cb: Callback, msg: Message, ghost passed: seq<Callback>, ghost rest: seq<Callback>)
      returns (offered: bool, removed: bool, ghost front: seq<Callback>)
      requires Valid() && cbs == passed + [cb] + rest
      modifies this
      ensures Valid() && old(needsFree) <= needsFree
      ensures Newer(front, old(born)) && old(born) <= born
      ensures cbs == front + passed + (if removed then [] else [cb]) + rest
      ensures offered <==> Matches(cb, msg) && cb !in old(needsFree)
      ensures removed ==> offered
      ensures calls == if offered then old(calls) + [Call(msg, cb, removed)] else old(calls)
    {
      offered, removed, front := false, false, [];
      if cb in needsFree {
        return;
      }
      var r;
      r, front := Invoke(cb, msg);
      assert cbs == (front + passed) + [cb] + rest;
      offered := Matches(cb, msg);
      if r != 0 {
        Unlink(cb, front + passed, rest);
        removed := true;
      }
    }

    ghost predicate Walking(w: Walk, msg: Message)
      reads this
    {
      && Valid() && w.Shaped(needsFree, msg)
      && w.born <= born
      && cbs == w.OnList() && calls == w.Made(msg)
    }

    /** One round of the walk: the next entry is saved before the lock is given up. */
    method WalkOn(cb: Callback, msg: Message, ghost w: Walk) returns (next: Option<Callback>, ghost w': Walk)
      requires Walking(w, msg) && w.k < |w.all| && cb == w.all[w.k]
      modifies this
      ensures Walking(w', msg) && w'.k == w.k + 1 && w'.all == w.all && w'.Same(w)
      ensures next == if w.k + 1 < |w.all| then Some(w.all[w.k + 1]) else None
    {
      hide Only, Without, Calls, Distinct, After, Matches, Accounted, Seen, Newer, Walk.Passed, Walk.Rest, Walk.OnList;
      hide Walk.Made;
      w.Current();
      next := After(cbs, cb);
      ghost var nf, b, flagged := needsFree, born, cb in needsFree;
      var called, removed;
      ghost var more;
      called, removed, more := Turn(cb, msg, w.Passed(), w.Rest());
      w' := w.Next(called, removed, flagged, more);
      w.Advanced(called, removed, flagged, more, b, msg, nf, needsFree);
      TurnTaken(w, called, removed, flagged, more, msg);
      TurnKept(w, called, removed, flagged, more);
    }

    lemma {:induction false} End(w: Walk, start: Walk, msg: Message)
      requires Walking(w, msg) && w.Same(start) && w.k >= |w.all|
      ensures Valid() && start.was <= needsFree
      ensures calls == start.before + Calls(msg, Only(start.all, w.offered), w.gone)
      ensures forall cb :: cb in start.all ==>
        && (cb in w.offered <==> Matches(cb, msg) && cb !in w.spared)
        && (cb in start.was ==> cb in w.spared)
        && (cb in w.spared ==> cb in needsFree)
      ensures w.gone <= w.offered && cbs == w.front + Without(start.all, w.gone)
      ensures Newer(w.front, start.born) && start.born <= born
    {
      assert w.all[..w.k] == w.all && w.all[w.k..] == [];
      AllAccounted(w.all, msg, w.offered, w.spared, w.was, needsFree);
      hide Only, Without, Calls, Distinct, Matches, Seen, Newer;
    }

    lemma {:induction false} Begin(w: Walk, msg: Message)
      requires Valid() && w == Walk(cbs, 0, {}, {}, {}, [], needsFree, calls, born)
      ensures Walking(w, msg) && w.Same(w)
    {
      Nothing(cbs, msg, needsFree, born);
    }

    /** The walk of usbi_hotplug_process over the callbacks for one message. Of the callbacks on the list
        at the start those in `offered` were called, in list order; those in `spared` were found flagged
        for removal when their turn came; those in `gone` asked to be removed. */
    method Dispatch(msg: Message)
      returns (ghost offered: set<Callback>, ghost spared: set<Callback>, ghost gone: set<Callback>,
                                           ghost front: seq<Callback>)
      requires Valid()
      modifies this
      ensures Valid() && old(needsFree) <= needsFree
      ensures calls == old(calls) + Calls(msg, Only(old(cbs), offered), gone)
      ensures forall cb :: cb in old(cbs) ==>
        && (cb in offered <==> Matches(cb, msg) && cb !in spared)
        && (cb in old(needsFree) ==> cb in spared)
        && (cb in spared ==> cb in needsFree)
      ensures gone <= offered && cbs == front + Without(old(cbs), gone)
      ensures Newer(front, old(born)) && old(born) <= born
    {
      hide *;
      ghost var start := Walk(cbs, 0, {}, {}, {}, [], needsFree, calls, born);
      ghost var w := start;
      Begin(w, msg);
      var cur := if |cbs| > 0 then Some(cbs[0]) else None;
      while cur.Some?
        invariant Walking(w, msg) && w.Same(start)
        invariant cur == if w.k < |w.all| then Some(w.all[w.k]) else None
        decreases |w.all| - w.k
      {
        ghost var last := w;
        cur, w := WalkOn(cur.value, msg, w);
        w.SameAgain(last, start);
      }
      End(w, start, msg);
      offered, spared, gone, front := w.offered, w.spared, w.gone, w.front;
    }

    method DispatchPass(msg: Message) returns (ghost p: Pass)
      requires Valid()
      modifies this
      ensures Valid() && p.msg == msg && p.cbs == old(cbs) && p.flagged == old(needsFree) && p.born == old(born)
      ensures p.Fair() && p.LeadsTo(cbs, needsFree, born) && calls == old(calls) + p.Made()
    {
      hide Only, Without, Calls, Distinct, Matches, Newer;
      ghost var offered, spared, gone, front := Dispatch(msg);
      p := Pass(msg, old(cbs), old(needsFree), old(born), offered, spared, gone, front);
    }

    method SweepOne(cb: Callback, ghost all: seq<Callback>, ghost k: nat) returns (next: Option<Callback>)
      requires Valid() && k < |all| && cb == all[k] && cbs == Swept(all, k, needsFree)
      modifies `cbs
      ensures Valid() && cbs == Swept(all, k + 1, needsFree)
      ensures next == if k + 1 < |all| then Some(all[k + 1]) else None
    {
      hide Only, Without, Distinct, After, Swept;
      SweptAt(all, k, needsFree);
      next := After(cbs, cb);
      if cb in needsFree {
        Unlink(cb, Without(all[..k], needsFree), all[k + 1..]);
      }
    }

    /** The end of usbi_hotplug_process, all under the lock. */
    method Sweep()
      requires Valid()
      modifies `cbs
      ensures Valid() && cbs == Without(old(cbs), needsFree) && forall cb :: cb in cbs ==> cb !in needsFree
    {
      hide *;
      ghost var all, k := cbs, 0;
      Start(all, needsFree);
      var cur := if |cbs| > 0 then Some(cbs[0]) else None;
      while cur.Some?
        invariant Valid() && 0 <= k <= |all| && cur == if k < |all| then Some(all[k]) else None
        invariant cbs == Swept(all, k, needsFree)
        decreases |all| - k
      {
        cur := SweepOne(cur.value, all, k);
        k := k + 1;
      }
      SweptAll(all, needsFree);
    }

    /** usbi_hotplug_process: every message in turn is offered to the callbacks, then the callbacks flagged
        for removal are freed. The pass made for a message records what happened in it; `left` is the list
        before the final sweep, `released` the devices whose reference a message held. */
    method Process(msgs: seq<Message>)
      returns (released: seq<Device>, ghost passes: seq<Pass>, ghost left: seq<Callback>)
      requires Valid()
      modifies this
      ensures Valid() && Chained(passes) && Answers(passes, msgs)
      ensures Reached(passes, old(cbs), old(needsFree), old(born), left, needsFree, born)
      ensures calls == old(calls) + Delivered(passes)
      ensures cbs == Without(left, needsFree) && forall cb :: cb in cbs ==> cb !in needsFree
      ensures released == Released(msgs)
    {
      hide *;
      var rest := msgs;
      ghost var done := [];
      released, passes := [], [];
      NonePassed(cbs, needsFree, born, calls);
      while rest != []
        invariant Valid() && Chained(passes) && Answers(passes, done) && done + rest == msgs
        invariant Reached(passes, old(cbs), old(needsFree), old(born), cbs, needsFree, born)
        invariant calls == old(calls) + Delivered(passes)
        invariant released == Released(done)
      {
        var msg := rest[0];
        ghost var p := DispatchPass(msg);
        Passed(passes, p, done, old(cbs), old(needsFree), old(born), cbs, needsFree, born, old(calls));
        ReleasedOn(done, msg);
        if msg.event == DEVICE_LEFT {
          released := released + [msg.device];
        }
        passes, done, rest := passes + [p], done + [msg], rest[1..];
      }
      assert done == msgs;
      left := cbs;
      Sweep();
    }
  }

  /** A callback stays on the list until it is removed in its own turn, and then never returns. */
  lemma {:induction false} OnListIff(passes: seq<Pass>, cb: Callback, j: nat)
    requires Chained(passes) && j < |passes| && cb in passes[0].cbs
    ensures cb in passes[j].cbs <==> forall i :: 0 <= i < j ==> cb !in passes[i].gone
    ensures cb.id < passes[j].born
  {
    if j > 0 {
      OnListIff(passes, cb, j - 1);
      var p := passes[j - 1];
      assert p.LeadsTo(passes[j].cbs, passes[j].flagged, passes[j].born);
      Members(p.cbs, p.gone);
      assert cb in passes[j].cbs <==> cb in Without(p.cbs, p.gone);
    }
  }

  lemma {:induction false} FlagsStay(passes: seq<Pass>, i: nat, j: nat)
    requires Chained(passes) && i <= j < |passes|
    ensures passes[i].flagged <= passes[j].flagged
    decreases j
  {
    if i < j {
      FlagsStay(passes, i, j - 1);
      assert passes[j - 1].LeadsTo(passes[j].cbs, passes[j].flagged, passes[j].born);
    }
  }

  ghost predicate Called(calls: seq<Call>, cb: Callback) {
    exists call :: call in calls && call.cb == cb
  }

  /** Which messages a callback registered before the first pass is called for: those it matches, until it
      asks to be removed or is found flagged; once it was flagged before a pass, none. */
  lemma {:induction false} CalledIff(passes: seq<Pass>, cb: Callback, j: nat)
    requires Chained(passes) && j < |passes| && cb in passes[0].cbs
    ensures Called(passes[j].Made(), cb) <==>
            (forall i :: 0 <= i < j ==> cb !in passes[i].gone) && Matches(cb, passes[j].msg) && cb !in passes[j].spared
    ensures (exists i :: 0 <= i <= j && cb in passes[i].flagged) ==> !Called(passes[j].Made(), cb)
  {
    var p := passes[j];
    OnListIff(passes, cb, j);
    Members(p.cbs, p.offered);
    var only := Only(p.cbs, p.offered);
    assert p.Fair();
    assert Called(p.Made(), cb) <==> cb in only by {
      if cb in only {
        var k :| 0 <= k < |only| && only[k] == cb;
        assert p.Made()[k].cb == cb;
      }
    }
    forall i | 0 <= i <= j && cb in passes[i].flagged ensures cb in p.flagged {
      FlagsStay(passes, i, j);
    }
  }
}
