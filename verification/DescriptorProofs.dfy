/** The parser of Descriptors against a printer: it accepts exactly what the printer writes and gives back
    exactly what was written, and on any other bytes it loses nothing it has passed over. */
module DescriptorProofs {
  import opened Descriptors

  function Lo(w: int): Byte { w % 256 }

  function Hi(w: int): Byte
    requires 0 <= w < 0x10000
  {
    w / 256
  }

  predicate IsWord(w: int) {
    0 <= w < 0x10000
  }

  /** A run of whole class or vendor descriptors. */
  predicate Whole(x: seq<Byte>) {
    x == [] || (|x| >= 2 && 2 <= x[0] <= |x| && !Standard(x[1]) && Whole(x[x[0]..]))
  }

  /** The 7-byte form has no room for the last two fields. */
  predicate GoodEndpoint(e: Endpoint) {
    && IsWord(e.wMaxPacketSize) && Whole(e.extra)
    && (if e.bLength >= 9 then e.bLength == 9 + |e.pad|
        else e.bLength == 7 + |e.pad| && e.bRefresh == 0 && e.bSynchAddress == 0)
  }

  predicate GoodAltSetting(a: AltSetting) {
    && a.bLength == 9 + |a.pad| && Whole(a.extra)
    && a.bNumEndpoints == |a.endpoints| && |a.endpoints| <= a.declared <= USB_MAXENDPOINTS
    && forall k :: 0 <= k < |a.endpoints| ==> GoodEndpoint(a.endpoints[k])
  }

  predicate AllGood(i: seq<AltSetting>) {
    forall k :: 0 <= k < |i| ==> GoodAltSetting(i[k])
  }

  /** Alternate settings share an interface number. */
  predicate GoodInterface(i: Interface) {
    && i != [] && AllGood(i)
    && forall k :: 0 <= k < |i| ==> i[k].bInterfaceNumber == i[0].bInterfaceNumber
  }

  /** Neighbouring interfaces have different numbers. */
  predicate GoodInterfaces(ifs: seq<Interface>) {
    && (forall k :: 0 <= k < |ifs| ==> GoodInterface(ifs[k]))
    && forall k :: 0 < k < |ifs| ==> ifs[k - 1][0].bInterfaceNumber != ifs[k][0].bInterfaceNumber
  }

  predicate GoodConfig(c: Config) {
    && IsWord(c.wTotalLength) && c.bLength == 9 + |c.pad| && Whole(c.extra) && (c.declared == 0 ==> c.extra == [])
    && c.bNumInterfaces == |c.interfaces| && |c.interfaces| <= c.declared <= USB_MAXINTERFACES
    && GoodInterfaces(c.interfaces)
  }

  /** Fewer endpoints follow than were declared. */
  predicate Owes(a: AltSetting) {
    |a.endpoints| < a.declared
  }

  predicate InterfaceOwes(i: Interface) {
    i != [] && Owes(i[|i| - 1])
  }

  /** It is the very last alternate setting that owes endpoints. Elsewhere another interface descriptor follows, which
      tells the parser that there are no more. */
  predicate EndsOwing(c: Config) {
    c.interfaces != [] && InterfaceOwes(c.interfaces[|c.interfaces| - 1])
  }

  /** An endpoint descriptor without what follows it. */
  function EndpointHead(e: Endpoint): (h: seq<Byte>)
    requires GoodEndpoint(e)
    ensures |h| == e.bLength
  {
    [e.bLength, DT_ENDPOINT, e.bEndpointAddress, e.bmAttributes,
     Lo(e.wMaxPacketSize), Hi(e.wMaxPacketSize), e.bInterval]
    + (if e.bLength >= 9 then [e.bRefresh, e.bSynchAddress] else []) + e.pad
  }

  function PrintEndpoint(e: Endpoint): seq<Byte>
    requires GoodEndpoint(e)
  {
    EndpointHead(e) + e.extra
  }

  function PrintEndpoints(es: seq<Endpoint>): seq<Byte>
    requires forall k :: 0 <= k < |es| ==> GoodEndpoint(es[k])
  {
    if es == [] then [] else PrintEndpoint(es[0]) + PrintEndpoints(es[1..])
  }

  function AltSettingHead(a: AltSetting): (h: seq<Byte>)
    requires GoodAltSetting(a)
    ensures |h| == a.bLength
  {
    [a.bLength, DT_INTERFACE, a.bInterfaceNumber, a.bAlternateSetting, a.declared,
     a.bInterfaceClass, a.bInterfaceSubClass,
     a.bInterfaceProtocol, a.iInterface] + a.pad
  }

  function PrintAltSetting(a: AltSetting): seq<Byte>
    requires GoodAltSetting(a)
  {
    AltSettingHead(a) + a.extra + PrintEndpoints(a.endpoints)
  }

  function PrintAltSettings(i: seq<AltSetting>): seq<Byte>
    requires AllGood(i)
  {
    if i == [] then [] else PrintAltSetting(i[0]) + PrintAltSettings(i[1..])
  }

  function PrintInterfaces(ifs: seq<Interface>): seq<Byte>
    requires forall k :: 0 <= k < |ifs| ==> GoodInterface(ifs[k])
  {
    if ifs == [] then [] else assert GoodInterface(ifs[0]); PrintAltSettings(ifs[0]) + PrintInterfaces(ifs[1..])
  }

  function ConfigHead(c: Config): (h: seq<Byte>)
    requires GoodConfig(c)
    ensures |h| == c.bLength
  {
    [c.bLength, DT_CONFIG, Lo(c.wTotalLength), Hi(c.wTotalLength), c.declared, c.bConfigurationValue, c.iConfiguration,
     c.bmAttributes, c.MaxPower] + c.pad
  }

  function Print(c: Config): seq<Byte>
    requires GoodConfig(c)
  {
    ConfigHead(c) + (c.extra + PrintInterfaces(c.interfaces))
  }

  // Whatever is skipped is whole, and is skipped again when printed.

  /** A place where a scan over class and vendor descriptors stops. */
  predicate StopsSkip(b: seq<Byte>) {
    Skip(b) == Success((), 0, true)
  }

  /** A place where it stops, or where the next descriptor is cut off. */
  predicate Stops(b: seq<Byte>) {
    Skip(b).Success? && Skip(b).used == 0
  }

  /** The first descriptor is cut off. */
  predicate CutHere(b: seq<Byte>) {
    |b| >= DESC_HEADER_LENGTH && b[0] > |b|
  }

  lemma {:induction false} SkipsWhole(b: seq<Byte>)
    requires Skip(b).Success? && (Skip(b).clean || Skip(b).used == 0)
    ensures Whole(b[..Skip(b).used]) && Stops(b[Skip(b).used..])
    ensures Skip(b).clean ==> StopsSkip(b[Skip(b).used..])
  {
    var n := Skip(b).used;
    if n == 0 {
      assert b[0..] == b;
    } else {
      var tail := b[b[0]..];
      SkipsWhole(tail);
      assert b[..n][b[0]..] == tail[..Skip(tail).used];
      assert b[n..] == tail[Skip(tail).used..];
    }
  }

  lemma {:induction false} WholeIsSkipped(x: seq<Byte>, rest: seq<Byte>)
    requires Whole(x) && StopsSkip(rest)
    ensures Skip(x + rest) == Success((), |x|, true)
  {
    if x == [] {
      assert x + rest == rest;
    } else {
      WholeIsSkipped(x[x[0]..], rest);
      assert (x + rest)[x[0]..] == x[x[0]..] + rest;
    }
  }

  // Endpoints.

  lemma {:induction false} EndpointFromPrint(e: Endpoint, rest: seq<Byte>)
    requires GoodEndpoint(e) && StopsSkip(rest)
    ensures ParseEndpoint(PrintEndpoint(e) + rest) == Success([e], |PrintEndpoint(e)|, true)
  {
    hide Skip, Whole;
    var h := EndpointHead(e);
    var b := PrintEndpoint(e) + rest;
    assert b == h + (e.extra + rest);
    WholeIsSkipped(e.extra, rest);
    assert b[e.bLength..] == e.extra + rest;
    assert b[if e.bLength >= 9 then 9 else 7..e.bLength] == e.pad;
    assert b[e.bLength..e.bLength + |e.extra|] == e.extra;
  }

  lemma {:induction false} EndpointParts(b: seq<Byte>)
    requires ParseEndpoint(b).Success? && ParseEndpoint(b).clean && ParseEndpoint(b).used > 0
    ensures var Success(v, n, _) := ParseEndpoint(b);
      && 7 <= b[0] <= n <= |b| && b[1] == DT_ENDPOINT && |v| == 1
      && var s, e := Skip(b[b[0]..]), v[0];
      && s.Success? && (s.clean || s.used == 0) && n == b[0] + s.used
      && e.extra == b[b[0]..][..s.used] && e.bLength == b[0] && IsWord(e.wMaxPacketSize)
      && Lo(e.wMaxPacketSize) == b[4] && Hi(e.wMaxPacketSize) == b[5]
      && e.bEndpointAddress == b[2] && e.bmAttributes == b[3] && e.bInterval == b[6]
      && if b[0] >= 9 then e.bRefresh == b[7] && e.bSynchAddress == b[8] && e.pad == b[9..b[0]]
         else e.bRefresh == 0 && e.bSynchAddress == 0 && e.pad == b[7..b[0]]
  {
    hide Skip;
    assert b[b[0]..b[0]] == b[b[0]..][..0];
  }

  lemma {:induction false} EndpointIs(e: Endpoint, b: seq<Byte>, n: nat)
    requires |b| >= 7 && 7 <= b[0] <= n <= |b| && b[1] == DT_ENDPOINT && e.bLength == b[0] && IsWord(e.wMaxPacketSize)
    requires e.extra == b[b[0]..][..n - b[0]] && Whole(e.extra)
    requires Lo(e.wMaxPacketSize) == b[4] && Hi(e.wMaxPacketSize) == b[5]
    requires e.bEndpointAddress == b[2] && e.bmAttributes == b[3] && e.bInterval == b[6]
    requires if b[0] >= 9 then e.bRefresh == b[7] && e.bSynchAddress == b[8] && e.pad == b[9..b[0]]
             else e.bRefresh == 0 && e.bSynchAddress == 0 && e.pad == b[7..b[0]]
    ensures GoodEndpoint(e) && PrintEndpoint(e) == b[..n]
  {
    hide Whole, Lo, Hi;
    assert EndpointHead(e) == b[..b[0]];
    assert b[..n] == b[..b[0]] + b[b[0]..][..n - b[0]];
  }

  lemma {:induction false} Three(b: seq<Byte>, k: nat, m: nat, n: nat)
    requires k + m <= n <= |b|
    ensures b[..k] + b[k..][..m] + b[k + m..][..n - k - m] == b[..n]
  {
  }

  lemma {:induction false} DropTwice(b: seq<Byte>, m: nat, n: nat)
    requires m + n <= |b|
    ensures b[m..][n..] == b[m + n..]
  {
  }

  lemma {:induction false} EndpointToPrint(b: seq<Byte>)
    requires ParseEndpoint(b).Success? && ParseEndpoint(b).clean && ParseEndpoint(b).used > 0
    ensures var Success(v, n, _) := ParseEndpoint(b);
      GoodEndpoint(v[0]) && PrintEndpoint(v[0]) == b[..n] && Stops(b[n..])
  {
    hide *;
    EndpointParts(b);
    var tail, n := b[b[0]..], ParseEndpoint(b).used;
    SkipsWhole(tail);
    DropTwice(b, b[0], n - b[0]);
    Three(b, b[0], n - b[0], n);
    assert b[n..][..0] == [];
    EndpointIs(ParseEndpoint(b).value[0], b, n);
  }

  /** A standard descriptor that fits stops a scan. */
  lemma {:induction false} StandardStops(b: seq<Byte>)
    requires |b| >= 2 && 2 <= b[0] <= |b| && Standard(b[1])
    ensures StopsSkip(b)
  {
  }

  lemma {:induction false} EndpointStops(e: Endpoint, rest: seq<Byte>)
    requires GoodEndpoint(e)
    ensures StopsSkip(PrintEndpoint(e) + rest)
  {
    hide Skip, Whole;
    StandardStops(PrintEndpoint(e) + rest);
  }

  lemma {:induction false} EndpointPrints(e: Endpoint)
    requires GoodEndpoint(e)
    ensures |PrintEndpoint(e)| >= 7
  {
  }

  /** The buffer ends here, or something other than an endpoint follows. */
  predicate NoEndpointHere(b: seq<Byte>) {
    |b| < DESC_HEADER_LENGTH || b[1] != DT_ENDPOINT
  }

  lemma {:induction false} NoMoreEndpoints(b: seq<Byte>, count: nat)
    requires NoEndpointHere(b)
    ensures ParseEndpoints(b, count) == if count > 0 && |b| < DESC_HEADER_LENGTH then Failure else Success([], 0, true)
  {
    hide Skip;
  }

  lemma {:induction false} FirstEndpoint(b: seq<Byte>, e: Endpoint, n: nat, count: nat)
    requires n > 0 && count > 0 && ParseEndpoint(b) == Success([e], n, true)
    ensures n <= |b| && ParseEndpoints(b, count) == match ParseEndpoints(b[n..], count - 1)
      case Failure => Failure
      case Success(es, m, clean) => Success([e] + es, n + m, clean)
  {
    hide ParseEndpoint;
  }

  lemma {:induction false} EndpointsFromPrint(es: seq<Endpoint>, rest: seq<Byte>, count: nat)
    requires (forall k :: 0 <= k < |es| ==> GoodEndpoint(es[k])) && StopsSkip(rest) && NoEndpointHere(rest)
    requires |es| <= count
    ensures StopsSkip(PrintEndpoints(es) + rest)
    ensures ParseEndpoints(PrintEndpoints(es) + rest, count)
            == if |es| < count && |rest| < DESC_HEADER_LENGTH then Failure else Success(es, |PrintEndpoints(es)|, true)
    decreases |es|
  {
    hide Skip, PrintEndpoint, ParseEndpoint, ParseEndpoints, GoodEndpoint, NoEndpointHere;
    var b := PrintEndpoints(es) + rest;
    if es == [] {
      assert b == rest;
      NoMoreEndpoints(rest, count);
    } else {
      var tail, p := PrintEndpoints(es[1..]) + rest, PrintEndpoint(es[0]);
      EndpointsFromPrint(es[1..], rest, count - 1);
      EndpointFromPrint(es[0], tail);
      EndpointStops(es[0], tail);
      EndpointPrints(es[0]);
      assert b == p + tail && b[|p|..] == tail;
      FirstEndpoint(b, es[0], |p|, count);
      assert [es[0]] + es[1..] == es;
    }
  }

  lemma {:induction false} EndpointsToPrint(b: seq<Byte>, count: nat)
    requires ParseEndpoints(b, count).Success? && ParseEndpoints(b, count).clean && Stops(b)
    ensures var Success(es, n, _) := ParseEndpoints(b, count);
      && (forall k :: 0 <= k < |es| ==> GoodEndpoint(es[k]))
      && PrintEndpoints(es) == b[..n] && Stops(b[n..])
    decreases count
  {
    hide Skip, PrintEndpoint, ParseEndpoint, GoodEndpoint;
    var Success(es, n, _) := ParseEndpoints(b, count);
    if count == 0 || ParseEndpoint(b).used == 0 {
      assert b[0..] == b;
    } else {
      var m := ParseEndpoint(b).used;
      EndpointToPrint(b);
      EndpointsToPrint(b[m..], count - 1);
      var es' := ParseEndpoints(b[m..], count - 1).value;
      assert es == ParseEndpoint(b).value + es' && es[0] == ParseEndpoint(b).value[0] && es[1..] == es';
      assert b[..n] == b[..m] + b[m..][..n - m];
      assert b[n..] == b[m..][n - m..];
    }
  }

  // Alternate settings.

  lemma {:induction false} AltSettingBytes(a: AltSetting, x: seq<Byte>)
    requires GoodAltSetting(a)
    ensures var b := AltSettingHead(a) + x;
      && |b| >= 9 && b[0] == a.bLength && b[1] == DT_INTERFACE && b[2] == a.bInterfaceNumber
      && b[3] == a.bAlternateSetting
      && b[4] == a.declared && b[5] == a.bInterfaceClass && b[6] == a.bInterfaceSubClass && b[7] == a.bInterfaceProtocol
      && b[8] == a.iInterface && b[9..a.bLength] == a.pad && b[a.bLength..] == x
  {
    hide Whole, GoodEndpoint;
  }

  lemma {:induction false} AltSettingFromPrint(a: AltSetting, rest: seq<Byte>)
    requires GoodAltSetting(a) && StopsSkip(rest) && NoEndpointHere(rest)
    ensures ParseAltSetting(PrintAltSetting(a) + rest)
            == if Owes(a) && |rest| < DESC_HEADER_LENGTH then Failure else Success([a], |PrintAltSetting(a)|, true)
    ensures !CutOff(PrintAltSetting(a) + rest) && StopsSkip(PrintAltSetting(a) + rest)
  {
    hide Skip, Whole, ParseEndpoints, PrintEndpoints, GoodEndpoint, AltSettingHead, NoEndpointHere;
    var tail := PrintEndpoints(a.endpoints) + rest;
    var b := PrintAltSetting(a) + rest;
    assert b == AltSettingHead(a) + (a.extra + tail);
    AltSettingBytes(a, a.extra + tail);
    StandardStops(b);
    EndpointsFromPrint(a.endpoints, rest, a.declared);
    WholeIsSkipped(a.extra, tail);
    assert b[a.bLength..a.bLength + |a.extra|] == a.extra;
    assert b[a.bLength + |a.extra|..] == tail;
  }

  lemma {:induction false} AltSettingStarts(b: seq<Byte>)
    requires |b| >= 9 && ParseAltSetting(b).Success? && ParseAltSetting(b).used > 0
    ensures 9 <= b[0] <= |b| && b[1] == DT_INTERFACE && b[4] <= USB_MAXENDPOINTS && Skip(b[b[0]..]).Success?
    ensures b[0] + Skip(b[b[0]..]).used <= |b|
  {
    hide Skip, ParseEndpoints;
  }

  lemma {:induction false} AltSettingCut(b: seq<Byte>)
    requires |b| >= 9 && ParseAltSetting(b).Success? && ParseAltSetting(b).used > 0
    requires 9 <= b[0] <= |b| && Skip(b[b[0]..]).Success? && !Skip(b[b[0]..]).clean
    ensures var n := Skip(b[b[0]..]).used;
      ParseAltSetting(b) == Success([AltSettingAt(b, b[4], [], [])], b[0] + n, n == 0 && b[4] == 0)
  {
    hide Skip, ParseEndpoints;
  }

  lemma {:induction false} AltSettingWhole(b: seq<Byte>)
    requires |b| >= 9 && ParseAltSetting(b).Success? && ParseAltSetting(b).used > 0
    requires 9 <= b[0] <= |b| && Skip(b[b[0]..]).Success? && Skip(b[b[0]..]).clean
    ensures var n := Skip(b[b[0]..]).used;
      var e := ParseEndpoints(b[b[0] + n..], b[4]);
      && e.Success?
      && ParseAltSetting(b)
         == Success([AltSettingAt(b, |e.value|, b[b[0]..b[0] + n], e.value)], b[0] + n + e.used, e.clean)
  {
    hide Skip, ParseEndpoints, AltSettingAt;
  }

  lemma {:induction false} NoEndpoints(b: seq<Byte>)
    ensures ParseEndpoints(b, 0) == Success([], 0, true) && b[0..] == b
  {
  }

  /** The parts an alternate setting that was parsed cleanly is made of, `tail` being what follows its descriptor. */
  lemma {:induction false} AltSettingParts(b: seq<Byte>, tail: seq<Byte>)
    requires |b| >= 9 && ParseAltSetting(b).Success? && ParseAltSetting(b).clean && ParseAltSetting(b).used > 0
    requires 9 <= b[0] <= |b| && tail == b[b[0]..]
    ensures Skip(tail).Success? && (Skip(tail).clean || Skip(tail).used == 0)
    ensures var r, m := ParseAltSetting(b), Skip(tail).used;
      var e := ParseEndpoints(tail[m..], b[4]);
      && e.Success? && e.clean
      && r == Success([AltSettingAt(b, |e.value|, tail[..m], e.value)], b[0] + m + e.used, true)
  {
    hide *;
    AltSettingStarts(b);
    var m := Skip(tail).used;
    DropTwice(b, b[0], m);
    if Skip(tail).clean {
      AltSettingWhole(b);
      assert b[b[0]..b[0] + m] == tail[..m];
    } else {
      AltSettingCut(b);
      NoEndpoints(tail[m..]);
      assert tail[..m] == [];
    }
  }

  lemma {:induction false} ExtraAndEndpoints(tail: seq<Byte>, m: nat, count: nat)
    requires Skip(tail).Success? && m == Skip(tail).used && (Skip(tail).clean || m == 0)
    requires ParseEndpoints(tail[m..], count).Success? && ParseEndpoints(tail[m..], count).clean
    ensures Whole(tail[..m])
    ensures var Success(es, k, _) := ParseEndpoints(tail[m..], count);
      && |es| <= count && (forall j :: 0 <= j < |es| ==> GoodEndpoint(es[j])) && PrintEndpoints(es) == tail[m..][..k]
      && Stops(tail[m..][k..])
  {
    hide *;
    SkipsWhole(tail);
    EndpointsToPrint(tail[m..], count);
  }

  lemma {:induction false} Behind(b: seq<Byte>, h: nat, m: nat, k: nat)
    requires h + m + k <= |b|
    ensures b[h..][m..][k..] == b[h + m + k..]
  {
  }

  lemma {:induction false} Chained(b: seq<Byte>, h: nat, extra: seq<Byte>, rest: seq<Byte>, k: nat)
    requires h + |extra| <= |b| && extra == b[h..][..|extra|] && rest == b[h..][|extra|..] && k <= |rest|
    ensures b[..h] + extra + rest[..k] == b[..h + |extra| + k]
  {
  }

  lemma {:induction false} AltSettingHeadIs(a: AltSetting, b: seq<Byte>)
    requires GoodAltSetting(a) && |b| >= 9 && 9 <= b[0] <= |b|
    requires b[..9] == [a.bLength, DT_INTERFACE, a.bInterfaceNumber, a.bAlternateSetting, a.declared, a.bInterfaceClass,
                        a.bInterfaceSubClass, a.bInterfaceProtocol, a.iInterface]
    requires a.pad == b[9..b[0]]
    ensures AltSettingHead(a) == b[..b[0]]
  {
    assert b[..b[0]] == b[..9] + b[9..b[0]];
  }

  lemma {:induction false} Assembled(b: seq<Byte>, a: AltSetting, tail: seq<Byte>, m: nat, es: seq<Endpoint>, k: nat,
        n: nat)
    requires |b| >= 9 && 9 <= b[0] <= |b| && b[1] == DT_INTERFACE && b[4] <= USB_MAXENDPOINTS
    requires n == b[0] + m + k <= |b|
    requires tail == b[b[0]..] && a == AltSettingAt(b, |es|, tail[..m], es)
    requires Whole(tail[..m]) && |es| <= b[4]
    requires (forall j :: 0 <= j < |es| ==> GoodEndpoint(es[j])) && PrintEndpoints(es) == tail[m..][..k]
    requires Stops(tail[m..][k..])
    ensures GoodAltSetting(a) && PrintAltSetting(a) == b[..n] && a.bInterfaceNumber == b[2] && Stops(b[n..])
  {
    hide Whole, PrintEndpoints, GoodEndpoint, AltSettingHead, Stops;
    AltSettingHeadIs(a, b);
    Chained(b, b[0], tail[..m], tail[m..], k);
    Behind(b, b[0], m, k);
  }

  lemma {:induction false} AltSettingToPrint(b: seq<Byte>)
    requires |b| >= 9 && ParseAltSetting(b).Success? && ParseAltSetting(b).clean && ParseAltSetting(b).used > 0
    ensures var Success(v, n, _) := ParseAltSetting(b);
      GoodAltSetting(v[0]) && PrintAltSetting(v[0]) == b[..n] && Stops(b[n..]) && v[0].bInterfaceNumber == b[2]
  {
    var v := ParseAltSetting(b).value;
    AltSettingStarts(b);
    hide *;
    var tail := b[b[0]..];
    AltSettingParts(b, tail);
    var m := Skip(tail).used;
    ExtraAndEndpoints(tail, m, b[4]);
    var e := ParseEndpoints(tail[m..], b[4]);
    Assembled(b, v[0], tail, m, e.value, e.used, b[0] + m + e.used);
  }

  lemma {:induction false} AltSettingStart(a: AltSetting, rest: seq<Byte>)
    requires GoodAltSetting(a)
    ensures |PrintAltSetting(a)| >= 9
    ensures var b := PrintAltSetting(a) + rest; b[1] == DT_INTERFACE && b[2] == a.bInterfaceNumber
  {
    AltSettingBytes(a, []);
    hide Whole, GoodEndpoint;
  }

  lemma {:induction false} InterfaceHere(b: seq<Byte>)
    requires |b| >= 2 && b[1] == DT_INTERFACE
    ensures NoEndpointHere(b)
  {
  }

  /** One round of parse_interface, and the rounds after it. */
  lemma {:induction false} OneSetting(b: seq<Byte>, a: AltSetting, n: nat)
    requires |b| >= 9 && 0 < n <= |b| && !CutOff(b)
    ensures ParseAltSetting(b) == Failure ==> ParseAltSettings(b) == Failure
    ensures ParseAltSetting(b) == Success([a], n, true) ==>
            ParseAltSettings(b) == if !SameInterface(b[n..], a.bInterfaceNumber) then Success([a], n, true) else
                                   match ParseAltSettings(b[n..])
                                   case Failure => Failure
                                   case Success(i, m, clean) => Success([a] + i, n + m, clean)
  {
    hide ParseAltSetting, CutOff, SameInterface;
  }

  lemma {:induction false} AltSettingsFromPrint(i: Interface, rest: seq<Byte>)
    requires GoodInterface(i) && StopsSkip(rest) && NoEndpointHere(rest) && !SameInterface(rest, i[0].bInterfaceNumber)
    ensures ParseAltSettings(PrintAltSettings(i) + rest)
            == if InterfaceOwes(i) && |rest| < DESC_HEADER_LENGTH then Failure
              else Success(i, |PrintAltSettings(i)|, true)
    ensures StopsSkip(PrintAltSettings(i) + rest)
    ensures var b := PrintAltSettings(i) + rest; |b| >= 9 && b[1] == DT_INTERFACE && b[2] == i[0].bInterfaceNumber
    decreases |i|
  {
    hide Skip, ParseAltSetting, ParseAltSettings, ParseEndpoints, PrintEndpoints, GoodEndpoint, CutOff, Whole;
    hide PrintAltSetting, Owes, NoEndpointHere;
    var a, tail := i[0], PrintAltSettings(i[1..]) + rest;
    var b, p := PrintAltSettings(i) + rest, PrintAltSetting(a);
    assert GoodAltSetting(a);
    assert b == p + tail && b[|p|..] == tail;
    AltSettingStart(a, tail);
    if |i| > 1 {
      assert i[1].bInterfaceNumber == a.bInterfaceNumber;
      AltSettingsFromPrint(i[1..], rest);
      InterfaceHere(tail);
      assert SameInterface(tail, a.bInterfaceNumber);
      AltSettingFromPrint(a, tail);
      OneSetting(b, a, |p|);
      assert [a] + i[1..] == i;
    } else {
      assert tail == rest && i == [a];
      AltSettingFromPrint(a, tail);
      OneSetting(b, a, |p|);
    }
  }

  lemma {:induction false} AltSettingFollows(b: seq<Byte>, number: Byte)
    requires Stops(b) && SameInterface(b, number) && ParseAltSettings(b).Success?
    ensures ParseAltSettings(b).used > 0 <==> !CutHere(b)
    ensures CutHere(b) ==> ParseAltSettings(b) == Success([], 0, true)
  {
    hide Skip, ParseEndpoints;
  }

  /** An interface with this number begins here, and is not cut off. */
  predicate Begins(b: seq<Byte>, number: Byte) {
    |b| >= DT_INTERFACE_SIZE && b[0] <= |b| && b[1] == DT_INTERFACE && b[2] == number
  }

  lemma {:induction false} Numbered(b: seq<Byte>, x: Byte, y: Byte)
    requires Begins(b, x) && SameInterface(b, y)
    ensures x == y
  {
  }

  /** How parse_interface goes on after an alternate setting. */
  lemma {:induction false} AltSettingsShape(b: seq<Byte>)
    requires ParseAltSettings(b).Success? && ParseAltSettings(b).used > 0
    ensures |b| >= DT_INTERFACE_SIZE == 9
    ensures var a, r := ParseAltSetting(b), ParseAltSettings(b);
      && a.Success? && a.used > 0 && |a.value| == 1 && Begins(b, a.value[0].bInterfaceNumber)
      && (r.clean ==> a.clean)
      && if CutOff(b) || !SameInterface(b[a.used..], a.value[0].bInterfaceNumber) then r == a else
         var rest := ParseAltSettings(b[a.used..]);
         rest.Success? && r == Success(a.value + rest.value, a.used + rest.used, a.clean && rest.clean)
  {
    hide Skip, ParseEndpoints, CutOff, SameInterface;
  }

  lemma {:induction false} CutOffHere(b: seq<Byte>)
    requires |b| >= 9 && CutOff(b) && ParseAltSetting(b).Success? && ParseAltSetting(b).clean
    requires ParseAltSetting(b).used > 0
    ensures CutHere(b[ParseAltSetting(b).used..])
  {
    hide ParseEndpoints;
  }

  lemma {:induction false} OneAltSetting(a: Interface)
    requires |a| == 1 && GoodAltSetting(a[0])
    ensures GoodInterface(a) && PrintAltSettings(a) == PrintAltSetting(a[0])
  {
    hide GoodAltSetting, PrintAltSetting;
    assert PrintAltSettings(a[1..]) == [];
  }

  lemma {:induction false} MoreAltSettings(a: AltSetting, i: Interface, b: seq<Byte>, n: nat, m: nat)
    requires GoodAltSetting(a) && GoodInterface(i) && i[0].bInterfaceNumber == a.bInterfaceNumber && n + m <= |b|
    requires PrintAltSetting(a) == b[..n] && PrintAltSettings(i) == b[n..][..m]
    ensures GoodInterface([a] + i) && PrintAltSettings([a] + i) == b[..n + m]
  {
    hide GoodAltSetting, PrintAltSetting;
    assert ([a] + i)[1..] == i;
  }

  lemma {:induction false} AltSettingsToPrint(b: seq<Byte>)
    requires ParseAltSettings(b).Success? && ParseAltSettings(b).clean && ParseAltSettings(b).used > 0
    ensures var Success(i, n, _) := ParseAltSettings(b);
      && GoodInterface(i) && PrintAltSettings(i) == b[..n] && Stops(b[n..])
      && Begins(b, i[0].bInterfaceNumber) && (SameInterface(b[n..], i[0].bInterfaceNumber) ==> CutHere(b[n..]))
    decreases |b|
  {
    hide *;
    AltSettingsShape(b);
    AltSettingToPrint(b);
    var a, n := ParseAltSetting(b).value, ParseAltSetting(b).used;
    OneAltSetting(a);
    if CutOff(b) {
      CutOffHere(b);
    } else if SameInterface(b[n..], a[0].bInterfaceNumber) {
      AltSettingFollows(b[n..], a[0].bInterfaceNumber);
      if CutHere(b[n..]) {
        assert a + [] == a;
      } else {
        AltSettingsToPrint(b[n..]);
        var rest := ParseAltSettings(b[n..]);
        Numbered(b[n..], rest.value[0].bInterfaceNumber, a[0].bInterfaceNumber);
        MoreAltSettings(a[0], rest.value, b, n, rest.used);
        assert a == [a[0]] && (a + rest.value)[0] == a[0];
        DropTwice(b, n, rest.used);
      }
    }
  }

  // Interfaces.

  lemma {:induction false} GoodRest(ifs: seq<Interface>)
    requires GoodInterfaces(ifs) && ifs != []
    ensures GoodInterface(ifs[0]) && AllGood(ifs[0]) && ifs[0] != [] && GoodInterfaces(ifs[1..])
    ensures |ifs| > 1 ==> ifs[0][0].bInterfaceNumber != ifs[1][0].bInterfaceNumber
  {
    hide AllGood;
    assert forall k :: 0 < k < |ifs[1..]| ==> ifs[1..][k - 1] == ifs[k] && ifs[1..][k] == ifs[k + 1];
  }

  lemma {:induction false} GoodCons(i: Interface, ifs: seq<Interface>)
    requires GoodInterface(i) && GoodInterfaces(ifs)
    requires ifs != [] ==> i[0].bInterfaceNumber != ifs[0][0].bInterfaceNumber
    ensures GoodInterfaces([i] + ifs)
  {
    hide AllGood;
    var all: seq<Interface> := [i] + ifs;
    forall k | 0 < k < |all|
      ensures all[k - 1][0].bInterfaceNumber != all[k][0].bInterfaceNumber
    {
      if k > 1 {
        assert ifs[k - 2][0].bInterfaceNumber != ifs[k - 1][0].bInterfaceNumber;
      }
    }
  }

  /** One round of the loop of parse_configuration. */
  lemma {:induction false} OneInterface(x: seq<Byte>, i: Interface, p: seq<Byte>, tail: seq<Byte>, count: nat)
    requires Skip(x + (p + tail)) == Success((), |x|, true) && count > 0 && i != [] && p != []
    ensures ParseAltSettings(p + tail) == Failure ==> ParseInterfaces(x + (p + tail), count) == Failure
    ensures ParseAltSettings(p + tail) == Success(i, |p|, true) ==>
            ParseInterfaces(x + (p + tail), count) == match ParseInterfaces(tail, count - 1)
              case Failure => Failure
              case Success(rest, k, clean) => Success((x + rest.0, [i] + rest.1), |x| + |p| + k, clean)
  {
    hide Skip, ParseAltSettings;
    var b := x + (p + tail);
    assert b[|x|..] == p + tail && b[|x| + |p|..] == tail && b[..|x|] == x;
  }

  lemma {:induction false} NothingToParse()
    ensures StopsSkip([]) && NoEndpointHere([]) && PrintInterfaces([]) == [] && Whole([])
    ensures forall number :: !SameInterface([], number)
  {
  }

  lemma {:induction false} NoInterfaceFollows(x: seq<Byte>, count: nat)
    requires Whole(x) && (count == 0 ==> x == [])
    ensures ParseInterfaces(x + [], count) == Success((x, []), |x|, true)
  {
    hide Skip;
    if count > 0 {
      NothingToParse();
      WholeIsSkipped(x, []);
      assert (x + [])[|x|..] == [] && (x + [])[..|x|] == x;
    }
  }

  predicate Owing(ifs: seq<Interface>) {
    ifs != [] && InterfaceOwes(ifs[|ifs| - 1])
  }

  lemma {:induction false} InterfacesFromPrint(x: seq<Byte>, ifs: seq<Interface>, count: nat)
    requires GoodInterfaces(ifs) && |ifs| <= count && Whole(x) && (count == 0 ==> x == [])
    ensures ParseInterfaces(x + PrintInterfaces(ifs), count)
            == if Owing(ifs) then Failure else Success((x, ifs), |x| + |PrintInterfaces(ifs)|, true)
    ensures StopsSkip(PrintInterfaces(ifs)) && NoEndpointHere(PrintInterfaces(ifs))
    ensures ifs != [] ==>
            var b := PrintInterfaces(ifs); |b| >= 9 && b[1] == DT_INTERFACE && b[2] == ifs[0][0].bInterfaceNumber
    decreases |ifs|
  {
    hide Skip, PrintAltSettings, ParseAltSettings, ParseInterfaces, GoodInterface, Whole, InterfaceOwes, NoEndpointHere;
    NothingToParse();
    if ifs == [] {
      NoInterfaceFollows(x, count);
    } else {
      GoodRest(ifs);
      var i, tail := ifs[0], PrintInterfaces(ifs[1..]);
      InterfacesFromPrint([], ifs[1..], count - 1);
      assert [] + tail == tail;
      AltSettingsFromPrint(i, tail);
      var p := PrintAltSettings(i);
      assert PrintInterfaces(ifs) == p + tail;
      InterfaceHere(p + tail);
      WholeIsSkipped(x, p + tail);
      OneInterface(x, i, p, tail, count);
      assert [i] + ifs[1..] == ifs && x + [] == x;
    }
  }

  /** What the loop of parse_configuration got from the first round and what from the rest. */
  lemma {:induction false} FirstInterface(b: seq<Byte>, count: nat) returns (n: nat, m: nat)
    requires ParseInterfaces(b, count).Success? && ParseInterfaces(b, count).clean
    requires ParseInterfaces(b, count).value.1 != []
    ensures count > 0 && Skip(b).Success? && Skip(b).clean && Skip(b).used == n <= |b|
    ensures ParseAltSettings(b[n..]).Success? && ParseAltSettings(b[n..]).clean
    ensures ParseAltSettings(b[n..]).used == m > 0
    ensures n + m <= |b| && ParseInterfaces(b[n + m..], count - 1).Success?
    ensures ParseInterfaces(b[n + m..], count - 1).clean
    ensures var Success(rest, k, _) := ParseInterfaces(b[n + m..], count - 1);
      ParseInterfaces(b, count)
        == Success((b[..n] + rest.0, [ParseAltSettings(b[n..]).value] + rest.1), n + m + k, true)
  {
    hide Skip, ParseAltSettings;
    n := Skip(b).used;
    m := ParseAltSettings(b[n..]).used;
  }

  lemma {:induction false} PrintFirst(i: Interface, ifs: seq<Interface>)
    requires GoodInterface(i) && GoodInterfaces(ifs) && GoodInterfaces([i] + ifs)
    ensures PrintInterfaces([i] + ifs) == PrintAltSettings(i) + PrintInterfaces(ifs)
  {
    hide PrintAltSettings, GoodInterface;
    assert ([i] + ifs)[1..] == ifs;
  }

  lemma {:induction false} Parted(u: seq<Byte>, x: seq<Byte>, v: seq<Byte>, w: seq<Byte>)
    requires x == []
    ensures (u + x) + (v + w) == u + v + w && x + w == w
  {
  }

  lemma {:induction false} PrintParts(b: seq<Byte>, n: nat, m: nat, k: nat, i: Interface, x: seq<Byte>,
        ifs: seq<Interface>)
    requires n + m + k <= |b| && GoodInterface(i) && GoodInterfaces(ifs) && GoodInterfaces([i] + ifs)
    requires PrintAltSettings(i) == b[n..][..m] && x == [] && x + PrintInterfaces(ifs) == b[n + m..][..k]
    ensures (b[..n] + x) + PrintInterfaces([i] + ifs) == b[..n + m + k]
  {
    hide PrintAltSettings, PrintInterfaces, AllGood;
    PrintFirst(i, ifs);
    Parted(b[..n], x, PrintAltSettings(i), PrintInterfaces(ifs));
    Three(b, n, m, n + m + k);
  }

  /** The config descriptor's extra bytes and its interfaces, printed, are the bytes that were parsed. */
  ghost predicate PrintsBack(b: seq<Byte>, p: (seq<Byte>, seq<Interface>), n: nat) {
    && n <= |b| && Whole(p.0) && GoodInterfaces(p.1) && p.0 + PrintInterfaces(p.1) == b[..n]
  }

  /** Extra bytes go only in front of the first interface; from there on every scan stops at once. */
  ghost predicate StartsWith(b: seq<Byte>, p: (seq<Byte>, seq<Interface>)) {
    && (Stops(b) ==> p.0 == [])
    && (Stops(b) && p.1 != [] && p.1[0] != [] ==> Begins(b, p.1[0][0].bInterfaceNumber))
  }

  /** What follows an interface has another number. */
  lemma {:induction false} NextDiffers(b: seq<Byte>, i: Interface, rest: (seq<Byte>, seq<Interface>), k: nat)
    requires Stops(b) && GoodInterface(i) && (SameInterface(b, i[0].bInterfaceNumber) ==> CutHere(b))
    requires PrintsBack(b, rest, k) && StartsWith(b, rest)
    ensures rest.0 == [] && GoodInterfaces(rest.1) && k <= |b| && rest.0 + PrintInterfaces(rest.1) == b[..k]
    ensures rest.1 != [] ==> GoodInterface(rest.1[0]) && i[0].bInterfaceNumber != rest.1[0][0].bInterfaceNumber
  {
    hide PrintInterfaces, AllGood, Whole, Stops;
    assert rest.1 != [] ==> GoodInterface(rest.1[0]);
  }

  lemma {:induction false} BackAndStart(b: seq<Byte>, n: nat, m: nat, k: nat, i: Interface, x: seq<Byte>,
        ifs: seq<Interface>)
    requires n + m + k <= |b| && x == [] && GoodInterface(i) && GoodInterfaces([i] + ifs) && Whole(b[..n])
    requires (b[..n] + x) + PrintInterfaces([i] + ifs) == b[..n + m + k]
    requires Skip(b).Success? && Skip(b).used == n && Begins(b[n..], i[0].bInterfaceNumber)
    ensures PrintsBack(b, (b[..n] + x, [i] + ifs), n + m + k) && StartsWith(b, (b[..n] + x, [i] + ifs))
  {
    hide PrintInterfaces, AllGood, Whole, Skip, GoodInterfaces, GoodInterface;
    assert b[..n] + [] == b[..n] && ([i] + ifs)[0] == i;
    assert n == 0 ==> b[n..] == b;
  }

  lemma {:induction false} Combine(b: seq<Byte>, n: nat, m: nat, k: nat, i: Interface,
        rest: (seq<Byte>, seq<Interface>))
    requires n + m <= |b| && Skip(b).Success? && Skip(b).clean && Skip(b).used == n
    requires m <= |b[n..]| && GoodInterface(i) && PrintAltSettings(i) == b[n..][..m] && Stops(b[n..][m..])
    requires Begins(b[n..], i[0].bInterfaceNumber)
    requires SameInterface(b[n..][m..], i[0].bInterfaceNumber) ==> CutHere(b[n..][m..])
    requires PrintsBack(b[n + m..], rest, k) && StartsWith(b[n + m..], rest)
    ensures PrintsBack(b, (b[..n] + rest.0, [i] + rest.1), n + m + k)
    ensures StartsWith(b, (b[..n] + rest.0, [i] + rest.1))
  {
    hide *;
    SkipsWhole(b);
    DropTwice(b, n, m);
    NextDiffers(b[n + m..], i, rest, k);
    GoodCons(i, rest.1);
    PrintParts(b, n, m, k, i, rest.0, rest.1);
    BackAndStart(b, n, m, k, i, rest.0, rest.1);
  }

  lemma {:induction false} NoInterfaces(b: seq<Byte>, count: nat)
    requires ParseInterfaces(b, count).Success? && ParseInterfaces(b, count).clean
    requires ParseInterfaces(b, count).value.1 == []
    ensures var Success(p, n, _) := ParseInterfaces(b, count);
      && Whole(p.0) && p.0 == b[..n] && GoodInterfaces([]) && PrintsBack(b, p, n) && StartsWith(b, p)
      && (count == 0 ==> p.0 == [])
  {
    hide ParseAltSettings;
    if count > 0 {
      SkipsWhole(b);
    }
  }

  lemma {:induction false} InterfacesToPrint(b: seq<Byte>, count: nat)
    requires ParseInterfaces(b, count).Success? && ParseInterfaces(b, count).clean
    ensures PrintsBack(b, ParseInterfaces(b, count).value, ParseInterfaces(b, count).used)
    ensures StartsWith(b, ParseInterfaces(b, count).value)
    decreases count
  {
    hide *;
    if ParseInterfaces(b, count).value.1 == [] {
      NoInterfaces(b, count);
    } else {
      var n, m := FirstInterface(b, count);
      AltSettingsToPrint(b[n..]);
      InterfacesToPrint(b[n + m..], count - 1);
      var Success(rest, k, _) := ParseInterfaces(b[n + m..], count - 1);
      Combine(b, n, m, k, ParseAltSettings(b[n..]).value, rest);
    }
  }

  // Configurations.

  /** Parsing what was printed gives back the configuration, with no bytes left, whatever was declared, unless the
      buffer ends where an endpoint is still owed: that is refused. */
  lemma {:induction false} RoundTrip(c: Config)
    requires GoodConfig(c)
    ensures ParseConfiguration(Print(c)) == if EndsOwing(c) then Failure else Success(c, |Print(c)|, true)
  {
    hide Whole, GoodInterface, PrintInterfaces, ParseInterfaces, InterfaceOwes;
    var b, body := Print(c), c.extra + PrintInterfaces(c.interfaces);
    InterfacesFromPrint(c.extra, c.interfaces, c.declared);
    assert b[c.bLength..] == body;
    assert b[9..c.bLength] == c.pad;
  }

  lemma {:induction false} NoneDeclared(b: seq<Byte>, count: nat)
    requires ParseInterfaces(b, count).Success? && count == 0
    ensures ParseInterfaces(b, count).value.0 == []
  {
  }

  lemma {:induction false} ConfigHeadIs(c: Config, b: seq<Byte>)
    requires GoodConfig(c) && |b| >= 9 && 9 <= b[0] <= |b| && b[1] == DT_CONFIG && c.wTotalLength == Word(b[2], b[3])
    requires c.bLength == b[0] && c.declared == b[4] && c.bConfigurationValue == b[5] && c.iConfiguration == b[6]
    requires c.bmAttributes == b[7] && c.MaxPower == b[8] && c.pad == b[9..b[0]]
    ensures ConfigHead(c) == b[..b[0]]
  {
    hide Whole, GoodInterfaces;
  }

  /** Whatever parses without loss is, as far as it was used, the printed configuration: the bytes
      used are whole descriptors in their order, and each one skipped is in one `extra`, verbatim. */
  lemma {:induction false} NothingLost(b: seq<Byte>)
    requires ParseConfiguration(b).Success? && ParseConfiguration(b).clean
    ensures var Success(c, n, _) := ParseConfiguration(b); GoodConfig(c) && Print(c) == b[..n]
  {
    hide Whole, GoodInterface, PrintInterfaces, ParseInterfaces;
    var Success(c, n, _) := ParseConfiguration(b);
    var body := b[b[0]..];
    InterfacesToPrint(body, b[4]);
    if b[4] == 0 { NoneDeclared(body, b[4]); }
    assert GoodConfig(c);
    ConfigHeadIs(c, b);
    hide GoodConfig, GoodInterfaces, ParseConfiguration;
    assert b[..n] == b[..b[0]] + body[..n - b[0]];
  }

  /** The parser accepts in full exactly what the printer writes, and inverts it. */
  lemma {:induction false} ParserInvertsPrinter(b: seq<Byte>, c: Config)
    ensures ParseConfiguration(b) == Success(c, |b|, true) <==> GoodConfig(c) && !EndsOwing(c) && Print(c) == b
  {
    hide ParseConfiguration, EndsOwing, GoodConfig, Print;
    if ParseConfiguration(b) == Success(c, |b|, true) {
      NothingLost(b);
      assert b[..|b|] == b;
    }
    if GoodConfig(c) && Print(c) == b {
      RoundTrip(c);
    }
  }

  // When no descriptor is cut off.

  /** A row of descriptors of which none is cut off; fewer than two bytes may be left over. */
  predicate Tiled(b: seq<Byte>) {
    |b| < 2 || (2 <= b[0] <= |b| && Tiled(b[b[0]..]))
  }

  lemma {:induction false} TiledSkip(b: seq<Byte>)
    requires Tiled(b) && Skip(b).Success?
    ensures Skip(b).clean && Tiled(b[Skip(b).used..])
  {
    if Skip(b).used == 0 {
      assert b[0..] == b;
    } else {
      TiledSkip(b[b[0]..]);
      assert b[Skip(b).used..] == b[b[0]..][Skip(b[b[0]..]).used..];
    }
  }

  lemma {:induction false} TiledEndpoint(b: seq<Byte>)
    requires Tiled(b) && ParseEndpoint(b).Success?
    ensures ParseEndpoint(b).clean && Tiled(b[ParseEndpoint(b).used..])
  {
    hide Skip;
    if ParseEndpoint(b).used == 0 {
      assert b[0..] == b;
    } else {
      TiledSkip(b[b[0]..]);
      assert b[ParseEndpoint(b).used..] == b[b[0]..][ParseEndpoint(b).used - b[0]..];
    }
  }

  lemma {:induction false} OneEndpoint(b: seq<Byte>, count: nat)
    requires count > 0 && ParseEndpoints(b, count).Success?
    ensures ParseEndpoint(b).Success?
    ensures var e, r := ParseEndpoint(b), ParseEndpoints(b, count);
      if e.used == 0 then r.used == 0 && r.clean == e.clean else
      var rest := ParseEndpoints(b[e.used..], count - 1);
      rest.Success? && r.used == e.used + rest.used && r.clean == (e.clean && rest.clean)
  {
    hide ParseEndpoint;
  }

  lemma {:induction false} TiledEndpoints(b: seq<Byte>, count: nat)
    requires Tiled(b) && ParseEndpoints(b, count).Success?
    ensures ParseEndpoints(b, count).clean && Tiled(b[ParseEndpoints(b, count).used..])
    decreases count
  {
    hide *;
    if count == 0 {
      NoEndpoints(b);
    } else {
      OneEndpoint(b, count);
      TiledEndpoint(b);
      var e, r := ParseEndpoint(b), ParseEndpoints(b, count);
      if e.used != 0 {
        var rest := ParseEndpoints(b[e.used..], count - 1);
        TiledEndpoints(b[e.used..], count - 1);
        DropTwice(b, e.used, rest.used);
        assert b[r.used..] == b[e.used..][rest.used..];
      }
    }
  }

  lemma {:induction false} TiledAltSetting(b: seq<Byte>)
    requires |b| >= DT_INTERFACE_SIZE && Tiled(b) && ParseAltSetting(b).Success?
    ensures ParseAltSetting(b).clean && Tiled(b[ParseAltSetting(b).used..])
  {
    hide Skip, ParseEndpoints;
    if ParseAltSetting(b).used == 0 {
      assert b[0..] == b;
    } else {
      var tail := b[b[0]..];
      TiledSkip(tail);
      var n := Skip(tail).used;
      assert b[b[0] + n..] == tail[n..];
      TiledEndpoints(tail[n..], b[4]);
      var m := ParseEndpoints(tail[n..], b[4]).used;
      assert b[b[0] + n + m..] == tail[n..][m..];
    }
  }

  lemma {:induction false} TiledAltSettings(b: seq<Byte>)
    requires Tiled(b) && ParseAltSettings(b).Success?
    ensures ParseAltSettings(b).clean && Tiled(b[ParseAltSettings(b).used..])
    decreases |b|
  {
    hide Skip, ParseAltSetting;
    assert b[0..] == b;
    if |b| >= DT_INTERFACE_SIZE {
      TiledAltSetting(b);
      var n := ParseAltSetting(b).used;
      if n > 0 && !CutOff(b) && SameInterface(b[n..], ParseAltSetting(b).value[0].bInterfaceNumber) {
        TiledAltSettings(b[n..]);
        var m := ParseAltSettings(b[n..]).used;
        assert b[n + m..] == b[n..][m..];
      }
    }
  }

  lemma {:induction false} OneMoreInterface(b: seq<Byte>, count: nat)
    requires count > 0 && ParseInterfaces(b, count).Success? && Skip(b).Success? && Skip(b).clean
    ensures var n := Skip(b).used;
      && n <= |b| && ParseAltSettings(b[n..]).Success?
      && var m := ParseAltSettings(b[n..]).used;
      && n + m <= |b|
      && (m == 0 ==> ParseInterfaces(b, count).clean == ParseAltSettings(b[n..]).clean)
      && var rest := ParseInterfaces(b[n + m..], count - 1);
      (m > 0 ==> rest.Success? && ParseInterfaces(b, count).clean == (ParseAltSettings(b[n..]).clean && rest.clean))
  {
    hide Skip, ParseAltSettings;
  }

  lemma {:induction false} SkipsFirst(b: seq<Byte>, count: nat)
    requires count > 0 && ParseInterfaces(b, count).Success?
    ensures Skip(b).Success?
  {
  }

  lemma {:induction false} NoMoreInterfaces(b: seq<Byte>)
    ensures ParseInterfaces(b, 0).Success? ==> ParseInterfaces(b, 0).clean
  {
  }

  lemma {:induction false} TiledInterfaces(b: seq<Byte>, count: nat)
    requires Tiled(b) && ParseInterfaces(b, count).Success?
    ensures ParseInterfaces(b, count).clean
    decreases count
  {
    hide *;
    if count == 0 {
      NoMoreInterfaces(b);
    } else {
      SkipsFirst(b, count);
      TiledSkip(b);
      OneMoreInterface(b, count);
      var n := Skip(b).used;
      TiledAltSettings(b[n..]);
      var m := ParseAltSettings(b[n..]).used;
      if m > 0 {
        DropTwice(b, n, m);
        TiledInterfaces(b[n + m..], count - 1);
      }
    }
  }

  /** A buffer of whole descriptors is refused or parsed without loss. */
  lemma {:induction false} TiledIsLossless(b: seq<Byte>)
    requires Tiled(b) && ParseConfiguration(b).Success?
    ensures var Success(c, n, clean) := ParseConfiguration(b); clean && GoodConfig(c) && Print(c) == b[..n]
  {
    hide ParseInterfaces;
    TiledInterfaces(b[b[0]..], b[4]);
    NothingLost(b);
  }

  /** A vendor descriptor cut off at the end takes the whole ones before it down with it. */
  lemma {:induction false} CutOffLosesExtra()
    ensures var b := [9, DT_CONFIG, 16, 0, 1, 1, 0, 0x80, 50] + [3, 0x21, 7] + [5, 0x24];
      && ParseConfiguration(b).Success? && !ParseConfiguration(b).clean && ParseConfiguration(b).used == 12
      && ParseConfiguration(b).value.extra == []
  {
    var b := [9, DT_CONFIG, 16, 0, 1, 1, 0, 0x80, 50] + [3, 0x21, 7] + [5, 0x24];
    var x: seq<Byte> := [3, 0x21, 7, 5, 0x24];
    assert b[9..] == x && x[3..] == [5, 0x24];
    assert Skip(x) == Success((), 3, false);
    assert ParseInterfaces(x, 1) == Success(([], []), 3, false);
  }
}
