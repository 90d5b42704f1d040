/** The USB configuration descriptor parser of descriptor.c, after sections 9.6.3, 9.6.5 and 9.6.6 of the
    USB 3.0 specification: what it makes of any sequence of bytes, and the loops that compute that. */
module Descriptors {
  type Byte = b: int | 0 <= b < 256

  const DT_DEVICE: Byte := 0x01
  const DT_CONFIG: Byte := 0x02
  const DT_INTERFACE: Byte := 0x04
  const DT_ENDPOINT: Byte := 0x05
  const DESC_HEADER_LENGTH := 2
  const DT_CONFIG_SIZE := 9
  const DT_INTERFACE_SIZE := 9
  const DT_ENDPOINT_SIZE := 7
  const DT_ENDPOINT_AUDIO_SIZE := 9
  const USB_MAXENDPOINTS := 32
  const USB_MAXINTERFACES := 32

  // The parsed structures. `pad` is what an over-long descriptor holds beyond the fields known here, and
  // `declared` a count as read; the C structures keep neither, the count being overwritten if fewer follow.

  datatype Endpoint = Endpoint(bEndpointAddress: Byte, bmAttributes: Byte, wMaxPacketSize: int, bInterval: Byte,
                               bRefresh: Byte, bSynchAddress: Byte, bLength: Byte, pad: seq<Byte>, extra: seq<Byte>)

  datatype AltSetting = AltSetting(bInterfaceNumber: Byte, bAlternateSetting: Byte, bNumEndpoints: int,
                                   bInterfaceClass: Byte, bInterfaceSubClass: Byte, bInterfaceProtocol: Byte,
                                   iInterface: Byte,
                                   bLength: Byte, declared: Byte, pad: seq<Byte>, extra: seq<Byte>,
                                   endpoints: seq<Endpoint>)

  /** An interface is the list of its alternate settings. */
  type Interface = seq<AltSetting>

  datatype Config = Config(wTotalLength: int, bNumInterfaces: int, bConfigurationValue: Byte, iConfiguration: Byte,
                           bmAttributes: Byte, MaxPower: Byte,
                           bLength: Byte, declared: Byte, pad: seq<Byte>, extra: seq<Byte>, interfaces: seq<Interface>)

  /** LIBUSB_ERROR_IO, or a value with the bytes it took. A scan over class and vendor descriptors is clean
      unless it ends at a descriptor that is cut off; a parse, unless the value lacks something of the bytes taken. */
  datatype Outcome<+T> = Failure | Success(value: T, used: nat, clean: bool)

  /** READ_LE16 */
  function Word(lo: Byte, hi: Byte): int {
    hi * 256 + lo
  }

  predicate Standard(bDescriptorType: Byte) {
    || bDescriptorType == DT_ENDPOINT || bDescriptorType == DT_INTERFACE
    || bDescriptorType == DT_CONFIG || bDescriptorType == DT_DEVICE
  }

  /** How many bytes of class or vendor descriptors `b` starts with. */
  function Skip(b: seq<Byte>): (r: Outcome<()>)
    ensures r.Success? ==> r.used <= |b|
  {
    if |b| < DESC_HEADER_LENGTH then Success((), 0, true)
    else if b[0] < DESC_HEADER_LENGTH then Failure
    else if b[0] > |b| then Success((), 0, false)
    else if Standard(b[1]) then Success((), 0, true)
    else match Skip(b[b[0]..])
      case Failure => Failure
      case Success(_, n, clean) => Success((), b[0] + n, clean)
  }

  /** parse_endpoint; None is its result 0, no endpoint here. */
  function ParseEndpoint(b: seq<Byte>): (r: Outcome<seq<Endpoint>>)
    ensures r.Success? ==> r.used <= |b| && |r.value| <= 1 && (r.used == 0 <==> r.value == [])
  {
    if |b| < DESC_HEADER_LENGTH then Failure
    else if b[1] != DT_ENDPOINT then Success([], 0, true)
    else if b[0] < DT_ENDPOINT_SIZE then Failure
    else if b[0] > |b| then Success([], 0, true)
    else
      var audio := b[0] >= DT_ENDPOINT_AUDIO_SIZE;
      var e := Endpoint(b[2], b[3], Word(b[4], b[5]), b[6], if audio then b[7] else 0, if audio then b[8] else 0,
                        b[0], b[if audio then 9 else 7..b[0]], []);
      match Skip(b[b[0]..])
      case Failure => Failure
      case Success(_, n, clean) =>
        Success([if clean then e.(extra := b[b[0]..b[0] + n]) else e], b[0] + n, clean || n == 0)
  }

  /** The loop of parse_interface over at most `count` endpoints. */
  function ParseEndpoints(b: seq<Byte>, count: nat): (r: Outcome<seq<Endpoint>>)
    ensures r.Success? ==> r.used <= |b| && |r.value| <= count
    decreases count
  {
    if count == 0 then Success([], 0, true)
    else match ParseEndpoint(b)
      case Failure => Failure
      case Success(e, n, clean) =>
        if n == 0 then Success([], 0, clean)
        else match ParseEndpoints(b[n..], count - 1)
          case Failure => Failure
          case Success(es, m, clean') => Success(e + es, n + m, clean && clean')
  }

  /** The alternate setting whose descriptor is in front of `b`. */
  function AltSettingAt(b: seq<Byte>, count: nat, extra: seq<Byte>, endpoints: seq<Endpoint>): AltSetting
    requires |b| >= 9 && 9 <= b[0] <= |b|
  {
    AltSetting(b[2], b[3], count, b[5], b[6], b[7], b[8], b[0], b[4], b[9..b[0]], extra, endpoints)
  }

  /** One round of parse_interface: no alternate setting here, or one. After one with a descriptor cut off right
      behind it parse_interface returns at once, and bNumEndpoints is what was declared. */
  function ParseAltSetting(b: seq<Byte>): (r: Outcome<seq<AltSetting>>)
    requires |b| >= DT_INTERFACE_SIZE
    ensures r.Success? ==> r.used <= |b| && |r.value| <= 1 && (r.used == 0 <==> r.value == [])
  {
    if b[1] != DT_INTERFACE then Success([], 0, true)
    else if b[0] < DT_INTERFACE_SIZE then Failure
    else if b[0] > |b| then Success([], 0, true)
    else if b[4] > USB_MAXENDPOINTS then Failure
    else
      match Skip(b[b[0]..])
      case Failure => Failure
      case Success(_, n, clean) =>
        if !clean then Success([AltSettingAt(b, b[4], [], [])], b[0] + n, n == 0 && b[4] == 0)
        else match ParseEndpoints(b[b[0] + n..], b[4])
          case Failure => Failure
          case Success(es, m, clean') =>
            Success([AltSettingAt(b, |es|, b[b[0]..b[0] + n], es)], b[0] + n + m, clean')
  }

  /** Whether what follows the first descriptor of `b` is cut off. */
  predicate CutOff(b: seq<Byte>) {
    |b| >= DESC_HEADER_LENGTH && b[0] <= |b| && Skip(b[b[0]..]).Success? && !Skip(b[b[0]..]).clean
  }

  /** Whether another alternate setting of interface `number` follows. */
  predicate SameInterface(b: seq<Byte>, number: Byte) {
    |b| >= DT_INTERFACE_SIZE && b[1] == DT_INTERFACE && b[2] == number
  }

  /** The rest of parse_interface. */
  function ParseAltSettings(b: seq<Byte>): (r: Outcome<Interface>)
    ensures r.Success? ==> r.used <= |b| && (r.used == 0 <==> r.value == [])
    decreases |b|
  {
    if |b| < DT_INTERFACE_SIZE then Success([], 0, true)
    else match ParseAltSetting(b)
      case Failure => Failure
      case Success(a, n, clean) =>
        if n == 0 || CutOff(b) || !SameInterface(b[n..], a[0].bInterfaceNumber) then Success(a, n, clean)
        else match ParseAltSettings(b[n..])
          case Failure => Failure
          case Success(as', m, clean') => Success(a + as', n + m, clean && clean')
  }

  /** The loop of parse_configuration over at most `count` interfaces; also what it adds to config->extra. */
  function ParseInterfaces(b: seq<Byte>, count: nat): (r: Outcome<(seq<Byte>, seq<Interface>)>)
    ensures r.Success? ==> r.used <= |b| && |r.value.1| <= count
    decreases count
  {
    if count == 0 then Success(([], []), 0, true)
    else match Skip(b)
      case Failure => Failure
      case Success(_, n, clean) =>
        if !clean then Success(([], []), n, n == 0)
        else match ParseAltSettings(b[n..])
          case Failure => Failure
          case Success(i, m, clean') =>
            if m == 0 then Success((b[..n], []), n, clean')
            else match ParseInterfaces(b[n + m..], count - 1)
              case Failure => Failure
              case Success(rest, k, clean'') => Success((b[..n] + rest.0, [i] + rest.1), n + m + k, clean' && clean'')
  }

  /** parse_configuration; it returns the bytes it has not used. */
  function ParseConfiguration(b: seq<Byte>): (r: Outcome<Config>)
    ensures r.Success? ==> DT_CONFIG_SIZE <= r.used <= |b|
  {
    if |b| < DT_CONFIG_SIZE then Failure
    else if b[1] != DT_CONFIG || b[0] < DT_CONFIG_SIZE || b[0] > |b| || b[4] > USB_MAXINTERFACES then Failure
    else match ParseInterfaces(b[b[0]..], b[4])
      case Failure => Failure
      case Success(parts, n, clean) =>
        Success(Config(Word(b[2], b[3]), |parts.1|, b[5], b[6], b[7], b[8], b[0], b[4], b[9..b[0]], parts.0, parts.1),
                b[0] + n, clean)
  }

  // The loops of descriptor.c, each with a cursor into the buffer, computing the functions above.

  /** What a loop has when it has got as far as `v` in `n` bytes and the rest would yield `r`. */
  function Extend<T>(v: seq<T>, n: nat, clean: bool, r: Outcome<seq<T>>): Outcome<seq<T>> {
    match r
    case Failure => Failure
    case Success(w, m, clean') => Success(v + w, n + m, clean && clean')
  }

  /** The loop over class and vendor descriptors that all three parsers share. */
  method SkipDescriptors(buffer: seq<Byte>, begin: nat) returns (r: Outcome<()>)
    requires begin <= |buffer|
    ensures r == Skip(buffer[begin..])
  {
    var pos := begin;
    while |buffer| - pos >= DESC_HEADER_LENGTH
      invariant begin <= pos <= |buffer|
      invariant Skip(buffer[begin..]) == match Skip(buffer[pos..])
                                         case Failure => Failure
                                         case Success(_, n, clean) => Success((), pos - begin + n, clean)
    {
      assert buffer[pos..][0] == buffer[pos] && buffer[pos..][1] == buffer[pos + 1];
      if buffer[pos] < DESC_HEADER_LENGTH {
        return Failure;
      }
      if buffer[pos] > |buffer| - pos {
        return Success((), pos - begin, false);
      }
      if Standard(buffer[pos + 1]) {
        break;
      }
      assert buffer[pos..][buffer[pos]..] == buffer[pos + buffer[pos]..];
      pos := pos + buffer[pos];
    }
    r := Success((), pos - begin, true);
  }

  /** parse_endpoint, at the start of what is left of the buffer. */
  method ParseEndpointAt(buffer: seq<Byte>) returns (r: Outcome<seq<Endpoint>>)
    ensures r == ParseEndpoint(buffer)
  {
    if |buffer| < DESC_HEADER_LENGTH {
      return Failure;
    }
    var bLength := buffer[0];
    if buffer[1] != DT_ENDPOINT {
      return Success([], 0, true);
    } else if bLength < DT_ENDPOINT_SIZE {
      return Failure;
    } else if bLength > |buffer| {
      return Success([], 0, true);
    }
    var e := Endpoint(buffer[2], buffer[3], Word(buffer[4], buffer[5]), buffer[6], 0, 0, bLength,
                      buffer[7..bLength], []);
    if bLength >= DT_ENDPOINT_AUDIO_SIZE {
      e := e.(bRefresh := buffer[7], bSynchAddress := buffer[8], pad := buffer[9..bLength]);
    }
    var s := SkipDescriptors(buffer, bLength);
    if s.Failure? {
      return Failure;
    }
    if s.clean {
      e := e.(extra := buffer[bLength..bLength + s.used]);
    }
    r := Success([e], bLength + s.used, s.clean || s.used == 0);
  }

  lemma {:induction false} ExtendTwice<T>(v: seq<T>, n: nat, clean: bool, v': seq<T>, n': nat, clean': bool,
        r: Outcome<seq<T>>)
    ensures Extend(v, n, clean, Extend(v', n', clean', r)) == Extend(v + v', n + n', clean && clean', r)
  {
    if r.Success? {
      assert v + (v' + r.value) == v + v' + r.value;
    }
  }

  /** One round of the loop over endpoints, behind what has been parsed so far. */
  lemma {:induction false} EndpointsUnfold(buffer: seq<Byte>, pos: nat, count: nat, endpoints: seq<Endpoint>, n: nat,
        clean: bool)
    requires pos <= |buffer|
    ensures var all := Extend(endpoints, n, clean, ParseEndpoints(buffer[pos..], count));
      var e := ParseEndpoint(buffer[pos..]);
      if count == 0 then all == Success(endpoints, n, clean)
      else if e.Failure? then all == Failure
      else if e.used == 0 then all == Success(endpoints, n, clean && e.clean)
      else
        && e.used <= |buffer| - pos
        && all == Extend(endpoints + e.value, n + e.used, clean && e.clean,
                         ParseEndpoints(buffer[pos + e.used..], count - 1))
  {
    hide ParseEndpoint;
    var e := ParseEndpoint(buffer[pos..]);
    assert endpoints + [] == endpoints;
    if count > 0 && e.Success? && e.used > 0 {
      assert buffer[pos..][e.used..] == buffer[pos + e.used..];
      ExtendTwice(endpoints, n, clean, e.value, e.used, e.clean, ParseEndpoints(buffer[pos + e.used..], count - 1));
    }
  }

  lemma {:induction false} ExtendNothing<T>(r: Outcome<seq<T>>)
    ensures Extend([], 0, true, r) == r
  {
    if r.Success? {
      assert [] + r.value == r.value;
    }
  }

  /** The endpoint loop of parse_interface. */
  method ParseEndpointsAt(buffer: seq<Byte>, start: nat, count: nat) returns (r: Outcome<seq<Endpoint>>)
    requires start <= |buffer|
    ensures r == ParseEndpoints(buffer[start..], count)
  {
    hide *;
    ExtendNothing(ParseEndpoints(buffer[start..], count));
    var pos, endpoints, clean := start, [], true;
    var i := 0;
    while i < count
      invariant i <= count && start <= pos <= |buffer|
      invariant ParseEndpoints(buffer[start..], count)
             == Extend(endpoints, pos - start, clean, ParseEndpoints(buffer[pos..], count - i))
    {
      EndpointsUnfold(buffer, pos, count - i, endpoints, pos - start, clean);
      var e := ParseEndpointAt(buffer[pos..]);
      if e.Failure? {
        return Failure;
      }
      if e.used == 0 {
        return Success(endpoints, pos - start, clean && e.clean);
      }
      endpoints, pos, clean, i := endpoints + e.value, pos + e.used, clean && e.clean, i + 1;
    }
    EndpointsUnfold(buffer, pos, 0, endpoints, pos - start, clean);
    r := Success(endpoints, pos - start, clean);
  }

  /** One round of the loop of parse_interface, at the start of what is left of the buffer. */
  method ParseAltSettingAt(buffer: seq<Byte>) returns (r: Outcome<seq<AltSetting>>, stop: bool)
    requires |buffer| >= DT_INTERFACE_SIZE
    ensures r == ParseAltSetting(buffer)
    ensures r.Success? && r.used > 0 ==> (stop <==> CutOff(buffer))
  {
    hide ParseEndpoints, Skip;
    stop := false;
    var bLength := buffer[0];
    if buffer[1] != DT_INTERFACE {
      return Success([], 0, true), stop;
    } else if bLength < DT_INTERFACE_SIZE {
      return Failure, stop;
    } else if bLength > |buffer| {
      return Success([], 0, true), stop;
    } else if buffer[4] > USB_MAXENDPOINTS {
      return Failure, stop;
    }
    var a := AltSetting(buffer[2], buffer[3], buffer[4], buffer[5], buffer[6], buffer[7], buffer[8],
                        bLength, buffer[4], buffer[9..bLength], [], []);
    var s := SkipDescriptors(buffer, bLength);
    if s.Failure? {
      return Failure, stop;
    }
    if !s.clean {
      return Success([a], bLength + s.used, s.used == 0 && buffer[4] == 0), true;
    }
    a := a.(extra := buffer[bLength..bLength + s.used]);
    var es := ParseEndpointsAt(buffer, bLength + s.used, buffer[4]);
    if es.Failure? {
      return Failure, stop;
    }
    r := Success([a.(endpoints := es.value, bNumEndpoints := |es.value|)], bLength + s.used + es.used, es.clean);
  }

  /** One round of the loop over alternate settings, behind what has been parsed so far. */
  lemma {:induction false} AltSettingsUnfold(buffer: seq<Byte>, pos: nat, altsetting: Interface, n: nat, clean: bool)
    requires pos <= |buffer|
    ensures var b, all := buffer[pos..], Extend(altsetting, n, clean, ParseAltSettings(buffer[pos..]));
      if |b| < DT_INTERFACE_SIZE then all == Success(altsetting, n, clean) else
      var a := ParseAltSetting(b);
      if a.Failure? then all == Failure else
      && a.used <= |buffer| - pos && (a.used == 0 <==> a.value == [])
      && if a.used == 0 || CutOff(b) || !SameInterface(buffer[pos + a.used..], a.value[0].bInterfaceNumber)
         then all == Success(altsetting + a.value, n + a.used, clean && a.clean)
         else all == Extend(altsetting + a.value, n + a.used, clean && a.clean,
                            ParseAltSettings(buffer[pos + a.used..]))
  {
    hide ParseAltSetting, CutOff, SameInterface;
    var b := buffer[pos..];
    assert altsetting + [] == altsetting;
    if |b| >= DT_INTERFACE_SIZE && ParseAltSetting(b).Success? {
      var a := ParseAltSetting(b);
      assert b[a.used..] == buffer[pos + a.used..];
      ExtendTwice(altsetting, n, clean, a.value, a.used, a.clean, ParseAltSettings(buffer[pos + a.used..]));
    }
  }

  /** parse_interface */
  method ParseInterfaceAt(buffer: seq<Byte>, start: nat) returns (r: Outcome<Interface>)
    requires start <= |buffer|
    ensures r == ParseAltSettings(buffer[start..])
  {
    hide ParseAltSetting, ParseAltSettings, CutOff, SameInterface, Extend;
    ExtendNothing(ParseAltSettings(buffer[start..]));
    var pos, altsetting, clean := start, [], true;
    while |buffer| - pos >= DT_INTERFACE_SIZE
      invariant start <= pos <= |buffer|
      invariant ParseAltSettings(buffer[start..])
                == Extend(altsetting, pos - start, clean, ParseAltSettings(buffer[pos..]))
    {
      AltSettingsUnfold(buffer, pos, altsetting, pos - start, clean);
      var a, stop := ParseAltSettingAt(buffer[pos..]);
      if a.Failure? {
        return Failure;
      }
      if a.used == 0 || stop || !SameInterface(buffer[pos + a.used..], a.value[0].bInterfaceNumber) {
        return Success(altsetting + a.value, pos - start + a.used, clean && a.clean);
      }
      altsetting, pos, clean := altsetting + a.value, pos + a.used, clean && a.clean;
    }
    AltSettingsUnfold(buffer, pos, altsetting, pos - start, clean);
    r := Success(altsetting, pos - start, clean);
  }

  function ExtendBoth(x: seq<Byte>, v: seq<Interface>, n: nat, clean: bool, r: Outcome<(seq<Byte>, seq<Interface>)>)
    : Outcome<(seq<Byte>, seq<Interface>)>
  {
    match r
    case Failure => Failure
    case Success(w, m, clean') => Success((x + w.0, v + w.1), n + m, clean && clean')
  }

  lemma {:induction false} ExtendBothNothing(r: Outcome<(seq<Byte>, seq<Interface>)>)
    ensures ExtendBoth([], [], 0, true, r) == r
  {
    if r.Success? {
      assert [] + r.value.0 == r.value.0 && [] + r.value.1 == r.value.1;
    }
  }

  lemma {:induction false} ExtendBothTwice(x: seq<Byte>, v: seq<Interface>, n: nat, clean: bool, x': seq<Byte>,
        v': seq<Interface>, n': nat, clean': bool, r: Outcome<(seq<Byte>, seq<Interface>)>)
    ensures ExtendBoth(x, v, n, clean, ExtendBoth(x', v', n', clean', r))
            == ExtendBoth(x + x', v + v', n + n', clean && clean', r)
  {
    if r.Success? {
      var w := r.value;
      assert x + (x' + w.0) == x + x' + w.0 && v + (v' + w.1) == v + v' + w.1;
    }
  }

  /** One round of the loop of parse_configuration with `left` interfaces to go: the class or vendor
      descriptors in front, and the interface; `done` ends the loop. */
  method ParseOneInterface(buffer: seq<Byte>, ghost left: nat)
    returns (r: Outcome<(seq<Byte>, seq<Interface>)>, done: bool)
    requires left > 0
    ensures r.Success? ==> r.used <= |buffer|
    ensures r.Failure? || done ==> ParseInterfaces(buffer, left) == r && (r.Success? ==> r.value.1 == [])
    ensures r.Success? && !done ==>
      ParseInterfaces(buffer, left)
        == ExtendBoth(r.value.0, r.value.1, r.used, r.clean, ParseInterfaces(buffer[r.used..], left - 1))
  {
    hide Skip, ParseAltSettings;
    done := true;
    var s := SkipDescriptors(buffer, 0);
    assert buffer[0..] == buffer;
    if s.Failure? {
      return Failure, done;
    }
    if !s.clean {
      return Success(([], []), s.used, s.used == 0), done;
    }
    var i := ParseInterfaceAt(buffer, s.used);
    if i.Failure? {
      return Failure, done;
    }
    done := i.used == 0;
    r := Success((buffer[..s.used], if done then [] else [i.value]), s.used + i.used, i.clean);
  }

  lemma {:induction false} NoMore(b: seq<Byte>)
    ensures ParseInterfaces(b, 0) == Success(([], []), 0, true)
  {
  }

  lemma {:induction false} FinishLoop(x: seq<Byte>, v: seq<Interface>, n: nat, clean: bool,
        r: Outcome<(seq<Byte>, seq<Interface>)>)
    ensures ExtendBoth(x, v, n, clean, Failure) == Failure
    ensures r.Success? && r.value.1 == [] ==>
            ExtendBoth(x, v, n, clean, r) == Success((x + r.value.0, v), n + r.used, clean && r.clean)
  {
    assert v + [] == v;
  }

  /** The interface loop of parse_configuration. */
  method ParseInterfacesAt(buffer: seq<Byte>, start: nat, count: nat) returns (r: Outcome<(seq<Byte>, seq<Interface>)>)
    requires start <= |buffer|
    ensures r == ParseInterfaces(buffer[start..], count)
  {
    hide ParseInterfaces, ExtendBoth;
    ExtendBothNothing(ParseInterfaces(buffer[start..], count));
    var pos, extra, interfaces, clean := start, [], [], true;
    var i := 0;
    while i < count
      invariant i <= count && start <= pos <= |buffer|
      invariant ParseInterfaces(buffer[start..], count)
             == ExtendBoth(extra, interfaces, pos - start, clean, ParseInterfaces(buffer[pos..], count - i))
    {
      var p, done := ParseOneInterface(buffer[pos..], count - i);
      if p.Failure? {
        FinishLoop(extra, interfaces, pos - start, clean, p);
        return Failure;
      }
      if done {
        FinishLoop(extra, interfaces, pos - start, clean, p);
        return Success((extra + p.value.0, interfaces), pos - start + p.used, clean && p.clean);
      }
      assert buffer[pos..][p.used..] == buffer[pos + p.used..];
      ExtendBothTwice(extra, interfaces, pos - start, clean, p.value.0, p.value.1, p.used, p.clean,
                      ParseInterfaces(buffer[pos + p.used..], count - i - 1));
      extra, interfaces, pos, clean, i :=
        extra + p.value.0, interfaces + p.value.1, pos + p.used, clean && p.clean, i + 1;
    }
    assert ParseInterfaces(buffer[pos..], 0) == Success(([], []), 0, true) by { NoMore(buffer[pos..]); }
    FinishLoop(extra, interfaces, pos - start, clean, Success(([], []), 0, true));
    assert extra + [] == extra;
    r := Success((extra, interfaces), pos - start, clean);
  }

  /** parse_configuration */
  method ParseConfigurationBuffer(buffer: seq<Byte>) returns (r: Outcome<Config>)
    ensures r == ParseConfiguration(buffer)
  {
    if |buffer| < DT_CONFIG_SIZE {
      return Failure;
    }
    var bLength := buffer[0];
    if buffer[1] != DT_CONFIG || bLength < DT_CONFIG_SIZE || bLength > |buffer| || buffer[4] > USB_MAXINTERFACES {
      return Failure;
    }
    var p := ParseInterfacesAt(buffer, bLength, buffer[4]);
    if p.Failure? {
      return Failure;
    }
    var c := Config(Word(buffer[2], buffer[3]), |p.value.1|, buffer[5], buffer[6], buffer[7], buffer[8],
                    bLength, buffer[4], buffer[9..bLength], p.value.0, p.value.1);
    r := Success(c, bLength + p.used, p.clean);
  }
}
