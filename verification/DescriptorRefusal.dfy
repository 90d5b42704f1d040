/** Which buffers the configuration parser refuses: the exact condition, on the bytes, descriptor by descriptor. */
module DescriptorRefusal {
  import opened IntrusiveList
  import opened Descriptors
  import opened DescriptorProofs

  /** Where a walk over the descriptors has got: how many interfaces may still begin, the number of the current one, how
      many of its endpoints are still owed, and whether the last standard descriptor was an endpoint. */
  datatype Place = Place(left: nat, number: Option<Byte>, owed: nat, behindEndpoint: bool)

  /** Another alternate setting of the current interface begins, or, as long as there may be one, another interface. */
  predicate InterfaceBegins(b: seq<Byte>, p: Place) {
    |b| >= DT_INTERFACE_SIZE && b[1] == DT_INTERFACE && (p.number == Some(b[2]) || p.left > 0)
  }

  function InInterface(b: seq<Byte>, p: Place): Place
    requires InterfaceBegins(b, p)
  {
    Place(if p.number == Some(b[2]) then p.left else p.left - 1, Some(b[2]), b[4], false)
  }

  /** On its way over the descriptors the parser comes upon something it refuses: a descriptor shorter than its header,
      an endpoint or an interface shorter than its kind allows, an interface with too many endpoints, or the end of
      the buffer where an endpoint is owed. Class and vendor descriptors are passed over; a descriptor cut off ends
      the walk, unless it is a short endpoint right where one is owed. */
  predicate Refuses(b: seq<Byte>, p: Place)
    decreases |b|
  {
    if |b| < DESC_HEADER_LENGTH then p.owed > 0
    else if b[0] < DESC_HEADER_LENGTH then true
    else if b[0] > |b| then p.owed > 0 && p.behindEndpoint && b[1] == DT_ENDPOINT && b[0] < DT_ENDPOINT_SIZE
    else if !Standard(b[1]) then Refuses(b[b[0]..], p)
    else if p.owed > 0 && b[1] == DT_ENDPOINT then
      b[0] < DT_ENDPOINT_SIZE || Refuses(b[b[0]..], p.(owed := p.owed - 1, behindEndpoint := true))
    else if InterfaceBegins(b, p) then
      b[0] < DT_INTERFACE_SIZE || b[4] > USB_MAXENDPOINTS || Refuses(b[b[0]..], InInterface(b, p))
    else false
  }

  /** Passing over class and vendor descriptors. */
  lemma {:induction false} SkipRefuses(b: seq<Byte>, p: Place)
    ensures Skip(b).Failure? ==> Refuses(b, p)
    ensures Skip(b).Success? ==> Refuses(b, p) == Refuses(b[Skip(b).used..], p) && Stops(b[Skip(b).used..])
    ensures Skip(b).Success? ==> (Skip(b).clean <==> !CutHere(b[Skip(b).used..]))
    decreases |b|
  {
    if |b| >= 2 && 2 <= b[0] <= |b| && !Standard(b[1]) {
      SkipRefuses(b[b[0]..], p);
      if Skip(b).Success? {
        assert b[b[0]..][Skip(b[b[0]..]).used..] == b[Skip(b).used..];
      }
    } else {
      assert b[0..] == b;
    }
  }

  /** When no endpoint is owed it does not matter what came last. */
  lemma {:induction false} NothingOwed(b: seq<Byte>, p: Place)
    requires p.owed == 0
    ensures Refuses(b, p) == Refuses(b, p.(behindEndpoint := true))
    decreases |b|
  {
    if |b| >= 2 && 2 <= b[0] <= |b| && !Standard(b[1]) {
      NothingOwed(b[b[0]..], p);
    }
  }

  lemma {:induction false} StopsWhere(b: seq<Byte>)
    requires Stops(b)
    ensures |b| >= 2 ==> b[0] >= 2 && (b[0] > |b| || Standard(b[1]))
  {
  }

  // Endpoints.

  /** No endpoint here: the walk goes on as if none were owed. */
  lemma {:induction false} NoEndpointRefuses(b: seq<Byte>, p: Place)
    requires Stops(b) && p.owed > 0 && ParseEndpoint(b).Success? && ParseEndpoint(b).used == 0
    ensures Refuses(b, p) == Refuses(b, p.(owed := 0, behindEndpoint := true))
  {
    StopsWhere(b);
    hide Skip;
    NothingOwed(b, p.(owed := 0));
  }

  lemma {:induction false} BadEndpoint(b: seq<Byte>, p: Place)
    requires Stops(b) && p.owed > 0 && (CutHere(b) ==> p.behindEndpoint) && ParseEndpoint(b).Failure?
    ensures Refuses(b, p)
  {
    StopsWhere(b);
    hide Skip;
    if |b| >= 2 && b[0] <= |b| && b[0] >= 7 {
      SkipRefuses(b[b[0]..], p.(owed := p.owed - 1, behindEndpoint := true));
    }
  }

  lemma {:induction false} GoodEndpointHere(b: seq<Byte>, p: Place)
    requires Stops(b) && p.owed > 0 && ParseEndpoint(b).Success? && ParseEndpoint(b).used > 0
    ensures var n := ParseEndpoint(b).used;
      n <= |b| && Stops(b[n..]) && Refuses(b, p) == Refuses(b[n..], p.(owed := p.owed - 1, behindEndpoint := true))
  {
    StopsWhere(b);
    hide Skip;
    var tail := b[b[0]..];
    SkipRefuses(tail, p.(owed := p.owed - 1, behindEndpoint := true));
    DropTwice(b, b[0], Skip(tail).used);
  }

  lemma {:induction false} EndpointsRefuse(b: seq<Byte>, p: Place)
    requires Stops(b) && (CutHere(b) && p.owed > 0 ==> p.behindEndpoint)
    ensures var r := ParseEndpoints(b, p.owed);
      if r.Failure? then Refuses(b, p) else
      && r.used <= |b| && Stops(b[r.used..])
      && Refuses(b, p) == Refuses(b[r.used..], p.(owed := 0, behindEndpoint := true))
    decreases p.owed
  {
    hide Refuses, ParseEndpoint, Skip, Stops;
    if p.owed == 0 {
      assert b[0..] == b;
      NothingOwed(b, p);
    } else if ParseEndpoint(b).Failure? {
      BadEndpoint(b, p);
    } else if ParseEndpoint(b).used == 0 {
      assert b[0..] == b;
      NoEndpointRefuses(b, p);
    } else {
      var n := ParseEndpoint(b).used;
      GoodEndpointHere(b, p);
      EndpointsRefuse(b[n..], p.(owed := p.owed - 1, behindEndpoint := true));
      var r := ParseEndpoints(b[n..], p.owed - 1);
      if r.Success? {
        DropTwice(b, n, r.used);
      }
    }
  }

  // Interfaces.

  /** The descriptor of an alternate setting is refused, or something in it is. */
  predicate SettingRefuses(b: seq<Byte>, left: nat)
    requires |b| >= DT_INTERFACE_SIZE && b[0] <= |b|
  {
    b[0] < DT_INTERFACE_SIZE || b[4] > USB_MAXENDPOINTS || Refuses(b[b[0]..], Place(left, Some(b[2]), b[4], false))
  }

  /** The walk behind an alternate setting of interface `number`, no endpoint being owed. */
  predicate RestRefuses(b: seq<Byte>, left: nat, number: Byte) {
    Refuses(b, Place(left, Some(number), 0, true))
  }

  lemma {:induction false} CutIsAccepted(b: seq<Byte>, p: Place)
    requires CutHere(b) && b[0] >= 2 && (p.owed == 0 || !p.behindEndpoint)
    ensures !Refuses(b, p)
  {
  }

  lemma {:induction false} SettingIs(b: seq<Byte>)
    requires |b| >= 9 && b[1] == DT_INTERFACE && b[0] <= |b|
    ensures b[0] < 9 || b[4] > USB_MAXENDPOINTS ==> ParseAltSetting(b).Failure?
    ensures b[0] >= 9 && b[4] <= USB_MAXENDPOINTS ==>
      var s, r := Skip(b[b[0]..]), ParseAltSetting(b);
      if s.Failure? then r.Failure? else
      && s.used <= |b| - b[0]
      && if !s.clean then r.Success? && r.used == b[0] + s.used else
         var e := ParseEndpoints(b[b[0] + s.used..], b[4]);
         if e.Failure? then r.Failure? else r.Success? && r.used == b[0] + s.used + e.used
  {
    hide Skip, ParseEndpoints, AltSettingAt;
  }

  lemma {:induction false} CutEnds(b: seq<Byte>, p: Place, left: nat, number: Byte)
    requires CutHere(b) && Stops(b) && !p.behindEndpoint
    ensures !Refuses(b, p) && !RestRefuses(b, left, number)
  {
    StopsWhere(b);
    CutIsAccepted(b, p);
    CutIsAccepted(b, Place(left, Some(number), 0, true));
  }

  lemma {:induction false} AltSettingRefuses(b: seq<Byte>, left: nat)
    requires |b| >= 9 && b[1] == DT_INTERFACE && b[0] <= |b|
    ensures var r := ParseAltSetting(b);
      if r.Failure? then SettingRefuses(b, left) else
      0 < r.used <= |b| && Stops(b[r.used..]) && SettingRefuses(b, left) == RestRefuses(b[r.used..], left, b[2])
  {
    hide ParseAltSetting, Refuses, Skip, Stops, ParseEndpoints;
    SettingIs(b);
    if b[0] >= 9 && b[4] <= USB_MAXENDPOINTS {
      var tail, p := b[b[0]..], Place(left, Some(b[2]), b[4], false);
      SkipRefuses(tail, p);
      var s := Skip(tail);
      if s.Success? {
        DropTwice(b, b[0], s.used);
        if !s.clean {
          CutEnds(tail[s.used..], p, left, b[2]);
        } else {
          EndpointsRefuse(tail[s.used..], p);
          var e := ParseEndpoints(tail[s.used..], b[4]);
          if e.Success? {
            DropTwice(b, b[0] + s.used, e.used);
          }
        }
      }
    }
  }

  /** Another alternate setting follows, not cut off. */
  predicate GoesOn(b: seq<Byte>, number: Byte) {
    SameInterface(b, number) && !CutHere(b)
  }

  lemma {:induction false} NextSetting(b: seq<Byte>, left: nat, number: Byte)
    requires Stops(b) && GoesOn(b, number)
    ensures |b| >= 9 && b[1] == DT_INTERFACE && b[0] <= |b| && b[2] == number
    ensures RestRefuses(b, left, number) == SettingRefuses(b, left)
  {
    StopsWhere(b);
    hide Skip;
  }

  lemma {:induction false} CutBehind(b: seq<Byte>)
    requires |b| >= 9 && b[1] == DT_INTERFACE && b[0] <= |b| && ParseAltSetting(b).Success? && CutOff(b)
    ensures CutHere(b[ParseAltSetting(b).used..])
  {
    SettingIs(b);
    SkipRefuses(b[b[0]..], Place(0, None, 0, false));
    DropTwice(b, b[0], Skip(b[b[0]..]).used);
  }

  /** How parse_interface goes on behind an alternate setting. */
  lemma {:induction false} SettingsGoOn(b: seq<Byte>)
    requires |b| >= 9 && b[1] == DT_INTERFACE && b[0] <= |b|
    ensures var a, r := ParseAltSetting(b), ParseAltSettings(b);
      if a.Failure? then r.Failure? else
      && a.used <= |b| && (CutOff(b) ==> CutHere(b[a.used..]))
      && (a.used > 0 && !CutOff(b) && SameInterface(b[a.used..], b[2]) ==>
           var rest := ParseAltSettings(b[a.used..]);
           if rest.Failure? then r.Failure? else r.Success? && r.used == a.used + rest.used)
      && (a.used > 0 && (CutOff(b) || !SameInterface(b[a.used..], b[2])) ==> r.Success? && r.used == a.used)
  {
    hide ParseEndpoints;
    if ParseAltSetting(b).Success? && CutOff(b) {
      CutBehind(b);
    }
    hide Skip;
  }

  lemma {:induction false} GoesOnIff(b: seq<Byte>, number: Byte)
    ensures GoesOn(b, number) <==> SameInterface(b, number) && !CutHere(b)
  {
  }

  lemma {:induction false} CutSetting(b: seq<Byte>, number: Byte)
    requires SameInterface(b, number) && CutHere(b)
    ensures ParseAltSettings(b) == Success([], 0, true)
  {
  }

  lemma {:induction false} DropNone(b: seq<Byte>)
    ensures b[0..] == b
  {
  }

  /** The settings of interface `number` end after n bytes, and what is left is refused or not, as `refused` says. */
  predicate EndsSettings(b: seq<Byte>, n: nat, refused: bool, left: nat, number: Byte) {
    n <= |b| && Stops(b[n..]) && refused == RestRefuses(b[n..], left, number) && !GoesOn(b[n..], number)
  }

  lemma {:induction false} EndsBehind(b: seq<Byte>, m: nat, n: nat, refused: bool, left: nat, number: Byte)
    requires m <= |b| && EndsSettings(b[m..], n, refused, left, number)
    ensures EndsSettings(b, m + n, refused, left, number)
  {
    hide Stops, RestRefuses, GoesOn;
    assert b[m..][n..] == b[m + n..];
  }

  lemma {:induction false} EndsIs(b: seq<Byte>, n: nat, refused: bool, left: nat, number: Byte)
    ensures EndsSettings(b, n, refused, left, number) <==>
            n <= |b| && Stops(b[n..]) && refused == RestRefuses(b[n..], left, number) && !GoesOn(b[n..], number)
  {
  }

  lemma {:induction false} AltSettingsRefuse(b: seq<Byte>, left: nat)
    requires |b| >= 9 && b[1] == DT_INTERFACE && b[0] <= |b|
    ensures var r := ParseAltSettings(b);
      if r.Failure? then SettingRefuses(b, left)
        else r.used > 0 && EndsSettings(b, r.used, SettingRefuses(b, left), left, b[2])
    decreases |b|, 0
  {
    var a := ParseAltSetting(b);
    hide *;
    AltSettingRefuses(b, left);
    SettingsGoOn(b);
    if a.Success? {
      var rest := b[a.used..];
      GoesOnIff(rest, b[2]);
      if !CutOff(b) && SameInterface(rest, b[2]) {
        MoreSettings(rest, left, b[2]);
        if ParseAltSettings(rest).Success? {
          EndsBehind(b, a.used, ParseAltSettings(rest).used, RestRefuses(rest, left, b[2]), left, b[2]);
        }
      } else {
        EndsIs(b, a.used, SettingRefuses(b, left), left, b[2]);
      }
    }
  }

  /** The other alternate settings of an interface, if there are any. */
  lemma {:induction false} MoreSettings(b: seq<Byte>, left: nat, number: Byte)
    requires Stops(b) && SameInterface(b, number)
    ensures var r := ParseAltSettings(b);
      if r.Failure? then RestRefuses(b, left, number)
        else EndsSettings(b, r.used, RestRefuses(b, left, number), left, number)
    decreases |b|, 1
  {
    hide *;
    GoesOnIff(b, number);
    if CutHere(b) {
      CutSetting(b, number);
      DropNone(b);
      EndsIs(b, 0, RestRefuses(b, left, number), left, number);
    } else {
      NextSetting(b, left, number);
      AltSettingsRefuse(b, left);
    }
  }

  lemma {:induction false} DropIfAny<T>(b: seq<Byte>, n: nat, r: Outcome<T>)
    requires n <= |b| && (r.Success? ==> r.used <= |b| - n)
    ensures r.Success? ==> b[n..][r.used..] == b[n + r.used..]
  {
  }

  // Configurations.

  /** Between interfaces, where the walk has not just left an alternate setting that goes on. */
  predicate BetweenInterfaces(b: seq<Byte>, p: Place) {
    p.owed == 0 && (p.number.None? ==> p.left > 0) && (p.number.Some? ==> Stops(b) && !GoesOn(b, p.number.value))
  }

  lemma {:induction false} NoneLeft(b: seq<Byte>, p: Place)
    requires BetweenInterfaces(b, p) && p.left == 0
    ensures !Refuses(b, p)
  {
    StopsWhere(b);
    hide Skip;
  }

  /** No interface descriptor begins here, or it is cut off. */
  predicate NoInterfaceHere(b: seq<Byte>) {
    CutHere(b) || |b| < DT_INTERFACE_SIZE || b[1] != DT_INTERFACE
  }

  /** The loop of parse_configuration ends here. */
  lemma {:induction false} LoopEnds(b: seq<Byte>, p: Place)
    requires Stops(b) && BetweenInterfaces(b, p) && p.left > 0
    requires NoInterfaceHere(b)
    ensures !Refuses(b, p)
    ensures !CutHere(b) ==> ParseAltSettings(b) == Success([], 0, true)
  {
    StopsWhere(b);
    hide Skip;
  }

  lemma {:induction false} NextInterface(b: seq<Byte>, p: Place)
    requires Stops(b) && BetweenInterfaces(b, p) && p.left > 0 && !CutHere(b) && |b| >= 9 && b[1] == DT_INTERFACE
    ensures b[0] <= |b| && Refuses(b, p) == SettingRefuses(b, p.left - 1)
  {
    StopsWhere(b);
    hide Skip;
  }

  /** One round of parse_configuration: `rest` is what its scan leaves. */
  lemma {:induction false} RoundIs(b: seq<Byte>, count: nat, rest: seq<Byte>)
    requires count > 0 && Skip(b).Success? && rest == b[Skip(b).used..]
    ensures var r, i := ParseInterfaces(b, count), ParseAltSettings(rest);
      if !Skip(b).clean then r.Success? else
      if i.Failure? then r.Failure? else
      && i.used <= |rest|
      && if i.used == 0 then r.Success? else r.Failure? == ParseInterfaces(rest[i.used..], count - 1).Failure?
  {
    hide Skip, ParseAltSettings;
    DropIfAny(b, Skip(b).used, ParseAltSettings(rest));
  }

  lemma {:induction false} RoundFails(b: seq<Byte>, count: nat)
    requires count > 0 && Skip(b).Failure?
    ensures ParseInterfaces(b, count).Failure?
  {
    hide Skip;
  }

  lemma {:induction false} StillBetween(b: seq<Byte>, p: Place, n: nat)
    requires BetweenInterfaces(b, p) && Skip(b).Success? && n == Skip(b).used && Stops(b[n..])
    ensures BetweenInterfaces(b[n..], p)
  {
    if p.number.Some? {
      assert b[0..] == b;
    }
  }

  lemma {:induction false} NextBetween(b: seq<Byte>, left: nat, number: Byte)
    requires Stops(b) && !GoesOn(b, number)
    ensures BetweenInterfaces(b, Place(left, Some(number), 0, true))
    ensures RestRefuses(b, left, number) == Refuses(b, Place(left, Some(number), 0, true))
  {
    hide Refuses;
  }

  lemma {:induction false} NoInterfaceDeclared(b: seq<Byte>)
    ensures ParseInterfaces(b, 0) == Success(([], []), 0, true)
  {
  }

  /** Behind the class and vendor descriptors in front of an interface, if there is one. */
  lemma {:induction false} RestRefuse(rest: seq<Byte>, p: Place)
    requires Stops(rest) && BetweenInterfaces(rest, p) && p.left > 0
    ensures CutHere(rest) ==> !Refuses(rest, p)
    ensures ParseAltSettings(rest).Success? ==> ParseAltSettings(rest).used <= |rest|
    ensures var i := ParseAltSettings(rest);
      !CutHere(rest) ==>
      if i.Failure? then Refuses(rest, p) else
      i.used <= |rest| && if i.used == 0 then !Refuses(rest, p) else
      ParseInterfaces(rest[i.used..], p.left - 1).Failure? <==> Refuses(rest, p)
    decreases p.left, 0
  {
    if NoInterfaceHere(rest) {
      LoopEnds(rest, p);
    } else {
      hide *;
      NextInterface(rest, p);
      AltSettingsRefuse(rest, p.left - 1);
      var i := ParseAltSettings(rest);
      if i.Success? {
        NextBetween(rest[i.used..], p.left - 1, rest[2]);
        InterfacesRefuse(rest[i.used..], Place(p.left - 1, Some(rest[2]), 0, true));
      }
    }
  }

  lemma {:induction false} InterfacesRefuse(b: seq<Byte>, p: Place)
    requires BetweenInterfaces(b, p)
    ensures ParseInterfaces(b, p.left).Failure? <==> Refuses(b, p)
    decreases p.left, 1
  {
    hide *;
    if p.left == 0 {
      NoneLeft(b, p);
      NoInterfaceDeclared(b);
    } else {
      SkipRefuses(b, p);
      if Skip(b).Failure? {
        RoundFails(b, p.left);
      } else {
        var rest := b[Skip(b).used..];
        StillBetween(b, p, Skip(b).used);
        RoundIs(b, p.left, rest);
        RestRefuse(rest, p);
      }
    }
  }

  /** The configuration descriptor itself is refused. */
  predicate BadHeader(b: seq<Byte>) {
    || |b| < DT_CONFIG_SIZE || b[1] != DT_CONFIG || b[0] < DT_CONFIG_SIZE || b[0] > |b| || b[4] > USB_MAXINTERFACES
  }

  /** A buffer is refused exactly when its configuration descriptor is, or when interfaces are declared and the walk
      behind it comes upon something to refuse. */
  lemma {:induction false} RefusedIff(b: seq<Byte>)
    ensures ParseConfiguration(b).Failure? <==>
            BadHeader(b) || (b[4] > 0 && Refuses(b[b[0]..], Place(b[4], None, 0, false)))
  {
    hide ParseInterfaces, Refuses;
    if !BadHeader(b) && b[4] > 0 {
      InterfacesRefuse(b[b[0]..], Place(b[4], None, 0, false));
    } else if !BadHeader(b) {
      NoInterfaceDeclared(b[b[0]..]);
    }
  }

  /** Fewer interfaces than declared are no reason to refuse a buffer. */
  lemma {:induction false} FewerAreAccepted()
    ensures var b := [9, DT_CONFIG, 18, 0, 2, 1, 0, 0x80, 50] + [9, DT_INTERFACE, 0, 0, 0, 0xff, 0, 0, 0];
      && ParseConfiguration(b).Success? && ParseConfiguration(b).used == 18
      && ParseConfiguration(b).value.bNumInterfaces == 1
  {
  }

  // Where the parser stops.

  /** One round of parse_configuration, if it is accepted. */
  lemma {:induction false} RoundEnds(b: seq<Byte>, count: nat, rest: seq<Byte>)
    requires count > 0 && ParseInterfaces(b, count).Success? && Skip(b).Success? && rest == b[Skip(b).used..]
    ensures var r, i := ParseInterfaces(b, count), ParseAltSettings(rest);
      if !Skip(b).clean then r.used == Skip(b).used && r.value.1 == [] else
      && i.Success? && i.used <= |rest|
      && if i.used == 0 then r.used == Skip(b).used && r.value.1 == [] else
         var more := ParseInterfaces(rest[i.used..], count - 1);
         more.Success? && r.used == Skip(b).used + i.used + more.used && |r.value.1| == 1 + |more.value.1|
  {
    hide Skip, ParseAltSettings;
    DropIfAny(b, Skip(b).used, ParseAltSettings(rest));
  }

  lemma {:induction false} NoneBegins(b: seq<Byte>)
    requires ParseAltSettings(b).Success?
    ensures ParseAltSettings(b).used == 0 ==> NoInterfaceHere(b)
  {
    if !NoInterfaceHere(b) {
      AltSettingsRefuse(b, 0);
    }
  }

  lemma {:induction false} SettingsEnd(b: seq<Byte>)
    requires ParseAltSettings(b).Success? && ParseAltSettings(b).used > 0
    ensures Stops(b[ParseAltSettings(b).used..])
  {
    if NoInterfaceHere(b) {
      hide Skip, ParseEndpoints;
    } else {
      AltSettingsRefuse(b, 0);
    }
  }

  lemma {:induction false} CutHasNone(b: seq<Byte>)
    requires CutHere(b)
    ensures NoInterfaceHere(b)
  {
  }

  lemma {:induction false} InterfacesEnd(b: seq<Byte>, count: nat)
    requires ParseInterfaces(b, count).Success? && (count == 0 ==> Stops(b))
    ensures var r := ParseInterfaces(b, count);
      Stops(b[r.used..]) && (|r.value.1| < count ==> NoInterfaceHere(b[r.used..]))
    decreases count
  {
    hide Skip, ParseAltSettings, ParseInterfaces, Stops, NoInterfaceHere;
    if count == 0 {
      NoInterfaceDeclared(b);
      DropNone(b);
    } else {
      if Skip(b).Failure? { RoundFails(b, count); }
      SkipRefuses(b, Place(0, None, 0, false));
      var rest := b[Skip(b).used..];
      RoundEnds(b, count, rest);
      if !Skip(b).clean {
        CutHasNone(rest);
      } else if ParseAltSettings(rest).used == 0 {
        NoneBegins(rest);
      } else {
        var n := ParseAltSettings(rest).used;
        SettingsEnd(rest);
        InterfacesEnd(rest[n..], count - 1);
        Behind(b, Skip(b).used, n, ParseInterfaces(rest[n..], count - 1).used);
      }
    }
  }

  /** The parser stops where no class or vendor descriptor is left to pass over, and with fewer interfaces than declared
      only where no other begins. */
  lemma {:induction false} StopsAtTheEnd(b: seq<Byte>)
    requires ParseConfiguration(b).Success? && b[4] > 0
    ensures var Success(c, n, _) := ParseConfiguration(b);
      Stops(b[n..]) && (c.bNumInterfaces < b[4] ==> NoInterfaceHere(b[n..]))
  {
    hide ParseInterfaces, Skip, Stops, NoInterfaceHere;
    InterfacesEnd(b[b[0]..], b[4]);
    DropTwice(b, b[0], ParseInterfaces(b[b[0]..], b[4]).used);
  }
}
