/** When the configuration parser loses something it has passed over: the exact condition, on the bytes. */
module DescriptorLoss {
  import opened Descriptors
  import opened DescriptorProofs

  /** The descriptor `d` starts with leaves something behind if the next one is cut off: a class or vendor
      descriptor is dropped, and an interface that declares endpoints keeps their number without them. */
  predicate Leaves(d: seq<Byte>)
    requires |d| >= 2
  {
    !Standard(d[1]) || (d[1] == DT_INTERFACE && |d| > 4 && d[4] > 0)
  }

  /** The first n bytes are whole descriptors, the next descriptor is cut off, and the last of those before it
      leaves something behind. */
  predicate EndsInLoss(b: seq<Byte>, n: nat)
    requires n <= |b|
    decreases n
  {
    && n >= 2 && 2 <= b[0] <= n
    && if b[0] == n then CutHere(b[n..]) && Leaves(b) else EndsInLoss(b[b[0]..], n - b[0])
  }

  /** Whole descriptors, end to end. */
  predicate Row(b: seq<Byte>, n: nat)
    requires n <= |b|
    decreases n
  {
    n == 0 || (n >= 2 && 2 <= b[0] <= n && Row(b[b[0]..], n - b[0]))
  }

  /** Only the last part of a row decides. */
  lemma {:induction false} LossLater(b: seq<Byte>, n: nat, m: nat)
    requires n + m <= |b| && Row(b, n) && m > 0
    ensures EndsInLoss(b, n + m) <==> EndsInLoss(b[n..], m)
    ensures Row(b[n..], m) ==> Row(b, n + m)
    decreases n
  {
    if n == 0 {
      assert b[0..] == b;
    } else {
      LossLater(b[b[0]..], n - b[0], m);
      assert b[b[0]..][n - b[0]..] == b[n..];
    }
  }

  /** No loss if nothing is cut off there. */
  lemma {:induction false} NoLoss(b: seq<Byte>, n: nat)
    requires n <= |b| && !CutHere(b[n..])
    ensures !EndsInLoss(b, n)
    decreases n
  {
    if n >= 2 && 2 <= b[0] < n {
      assert b[b[0]..][n - b[0]..] == b[n..];
      NoLoss(b[b[0]..], n - b[0]);
    }
  }

  lemma {:induction false} SkipLoss(b: seq<Byte>)
    requires Skip(b).Success?
    ensures Row(b, Skip(b).used)
    ensures Skip(b).clean <==> !CutHere(b[Skip(b).used..])
    ensures Skip(b).used > 0 ==> (Skip(b).clean <==> !EndsInLoss(b, Skip(b).used))
  {
    var n := Skip(b).used;
    if n == 0 {
      assert b[0..] == b;
    } else {
      var tail := b[b[0]..];
      SkipLoss(tail);
      assert tail[n - b[0]..] == b[n..];
    }
  }

  lemma {:induction false} EndpointLoss(b: seq<Byte>)
    requires ParseEndpoint(b).Success? && ParseEndpoint(b).used > 0
    ensures Row(b, ParseEndpoint(b).used)
    ensures ParseEndpoint(b).clean <==> !EndsInLoss(b, ParseEndpoint(b).used)
    ensures !ParseEndpoint(b).clean ==> CutHere(b[ParseEndpoint(b).used..])
  {
    var tail := b[b[0]..];
    SkipLoss(tail);
    assert tail[Skip(tail).used..] == b[ParseEndpoint(b).used..];
    hide Skip;
  }

  /** Nothing is parsed of a descriptor that is cut off. */
  lemma {:induction false} NothingOfCut(b: seq<Byte>, count: nat)
    requires CutHere(b)
    ensures ParseEndpoints(b, count).Success? ==> ParseEndpoints(b, count) == Success([], 0, true)
    ensures ParseAltSettings(b).Success? ==> ParseAltSettings(b) == Success([], 0, true)
    ensures ParseInterfaces(b, count) == Success(([], []), 0, true)
  {
  }

  lemma {:induction false} NoEndpoint(b: seq<Byte>)
    requires ParseEndpoint(b).Success? && ParseEndpoint(b).used == 0
    ensures ParseEndpoint(b).clean
  {
  }

  lemma {:induction false} EndpointsLoss(b: seq<Byte>, count: nat)
    requires ParseEndpoints(b, count).Success?
    ensures var r := ParseEndpoints(b, count);
      Row(b, r.used) && if r.used == 0 then r.clean else (r.clean <==> !EndsInLoss(b, r.used))
    decreases count
  {
    hide ParseEndpoint;
    if count > 0 && ParseEndpoint(b).used > 0 {
      var e, rest := ParseEndpoint(b), ParseEndpoints(b[ParseEndpoint(b).used..], count - 1);
      EndpointLoss(b);
      EndpointsLoss(b[e.used..], count - 1);
      if CutHere(b[e.used..]) {
        NothingOfCut(b[e.used..], count - 1);
      }
      hide ParseEndpoints, EndsInLoss, CutHere, Row;
      if rest.used > 0 {
        LossLater(b, e.used, rest.used);
      }
    } else if count > 0 {
      NoEndpoint(b);
    }
  }

  /** The first descriptor alone. */
  lemma {:induction false} LossAtFirst(b: seq<Byte>)
    requires |b| >= 2 && 2 <= b[0] <= |b|
    ensures Row(b, b[0]) && (EndsInLoss(b, b[0]) <==> CutHere(b[b[0]..]) && Leaves(b))
  {
  }

  lemma {:induction false} InterfaceLeaves(b: seq<Byte>)
    requires |b| >= 9 && b[1] == DT_INTERFACE
    ensures Leaves(b) <==> b[4] > 0
  {
  }

  lemma {:induction false} AfterEndpoints(b: seq<Byte>, n: nat, m: nat)
    requires n + m <= |b| && Row(b, n) && Row(b[n..], m)
    ensures Row(b, n + m) && (m > 0 ==> (EndsInLoss(b, n + m) <==> EndsInLoss(b[n..], m)))
  {
    hide Row, EndsInLoss;
    if m > 0 {
      LossLater(b, n, m);
    }
  }

  lemma {:induction false} AltSettingLoss(b: seq<Byte>)
    requires |b| >= 9 && ParseAltSetting(b).Success? && ParseAltSetting(b).used > 0
    ensures Row(b, ParseAltSetting(b).used)
    ensures ParseAltSetting(b).clean <==> !EndsInLoss(b, ParseAltSetting(b).used)
  {
    hide *;
    AltSettingStarts(b);
    var s := Skip(b[b[0]..]);
    SkipLoss(b[b[0]..]);
    LossAtFirst(b);
    InterfaceLeaves(b);
    DropTwice(b, b[0], s.used);
    if s.used > 0 {
      LossLater(b, b[0], s.used);
    }
    if !s.clean {
      AltSettingCut(b);
    } else {
      AltSettingWhole(b);
      EndpointsLoss(b[b[0] + s.used..], b[4]);
      NoLoss(b, b[0] + s.used);
      AfterEndpoints(b, b[0] + s.used, ParseEndpoints(b[b[0] + s.used..], b[4]).used);
    }
  }

  /** What is lost is lost at the end. */
  lemma {:induction false} LossIsCut(b: seq<Byte>, n: nat)
    requires n <= |b| && EndsInLoss(b, n)
    ensures CutHere(b[n..])
    decreases n
  {
    if b[0] < n {
      LossIsCut(b[b[0]..], n - b[0]);
      assert b[b[0]..][n - b[0]..] == b[n..];
    }
  }

  lemma {:induction false} AltSettingsStart(b: seq<Byte>)
    requires ParseAltSettings(b).Success?
    ensures var r := ParseAltSettings(b);
      if r.used == 0 then r.clean else
      |b| >= 9 && ParseAltSetting(b).Success? && 0 < ParseAltSetting(b).used <= |b| &&
      var a := ParseAltSetting(b);
      var rest := ParseAltSettings(b[a.used..]);
      (r.used == a.used && r.clean == a.clean)
      || (rest.Success? && r.used == a.used + rest.used && r.clean == (a.clean && rest.clean) && a.used < |b|)
  {
    hide Skip, ParseEndpoints, CutOff;
  }

  lemma {:induction false} NoRow(b: seq<Byte>)
    ensures Row(b, 0)
  {
  }

  lemma {:induction false} AltSettingsLoss(b: seq<Byte>)
    requires ParseAltSettings(b).Success?
    ensures var r := ParseAltSettings(b);
      Row(b, r.used) && if r.used == 0 then r.clean else (r.clean <==> !EndsInLoss(b, r.used))
    decreases |b|
  {
    hide Row, EndsInLoss, ParseAltSetting, ParseAltSettings, CutHere;
    AltSettingsStart(b);
    var r := ParseAltSettings(b);
    if r.used == 0 {
      NoRow(b);
    } else {
      var a := ParseAltSetting(b);
      var rest := ParseAltSettings(b[a.used..]);
      AltSettingLoss(b);
      if rest.Success? {
        AltSettingsLoss(b[a.used..]);
        if !a.clean {
          LossIsCut(b, a.used);
          NothingOfCut(b[a.used..], 0);
        }
        if rest.used > 0 {
          LossLater(b, a.used, rest.used);
        }
      }
    }
  }

  lemma {:induction false} InterfacesStart(b: seq<Byte>, count: nat)
    requires ParseInterfaces(b, count).Success? && count > 0
    ensures Skip(b).Success?
    ensures var r, s := ParseInterfaces(b, count), Skip(b);
      if !s.clean then r.used == s.used && (r.clean <==> s.used == 0) else
      var i := ParseAltSettings(b[s.used..]);
      && i.Success? && s.used + i.used <= |b|
      && if i.used == 0 then r.used == s.used && r.clean == i.clean else
         var rest := ParseInterfaces(b[s.used + i.used..], count - 1);
         rest.Success? && r.used == s.used + i.used + rest.used && r.clean == (i.clean && rest.clean)
  {
    hide Skip, ParseAltSettings;
  }

  lemma {:induction false} NoInterfaceLeft(b: seq<Byte>)
    ensures ParseInterfaces(b, 0) == Success(([], []), 0, true) && Row(b, 0)
  {
  }

  lemma {:induction false} InterfacesLoss(b: seq<Byte>, count: nat)
    requires ParseInterfaces(b, count).Success?
    ensures var r := ParseInterfaces(b, count);
      Row(b, r.used) && if r.used == 0 then r.clean else (r.clean <==> !EndsInLoss(b, r.used))
    decreases count
  {
    hide *;
    if count == 0 {
      NoInterfaceLeft(b);
    } else {
      InterfacesStart(b, count);
      SkipLoss(b);
      var s := Skip(b);
      if s.clean {
        var i := ParseAltSettings(b[s.used..]);
        AltSettingsLoss(b[s.used..]);
        if i.used > 0 {
          LossLater(b, s.used, i.used);
          var rest := ParseInterfaces(b[s.used + i.used..], count - 1);
          InterfacesLoss(b[s.used + i.used..], count - 1);
          if !i.clean {
            LossIsCut(b, s.used + i.used);
            NothingOfCut(b[s.used + i.used..], count - 1);
          }
          if rest.used > 0 {
            LossLater(b, s.used + i.used, rest.used);
          }
        }
      }
    }
  }

  /** A parse is clean exactly when it does not end in loss. */
  lemma {:induction false} CleanIff(b: seq<Byte>)
    requires ParseConfiguration(b).Success?
    ensures ParseConfiguration(b).clean <==> !EndsInLoss(b, ParseConfiguration(b).used)
  {
    var body := b[b[0]..];
    InterfacesLoss(body, b[4]);
    LossAtFirst(b);
    var r := ParseInterfaces(body, b[4]);
    hide ParseInterfaces, EndsInLoss, Row;
    if r.used > 0 {
      LossLater(b, b[0], r.used);
    }
  }

  // Whatever is lost makes the printed value shorter than the bytes that were taken.

  /** The size of a printed value against the bytes taken. */
  ghost predicate Fits(printed: nat, used: nat, clean: bool) {
    printed <= used && (printed == used <==> clean)
  }

  lemma {:induction false} EndpointSize(b: seq<Byte>)
    requires ParseEndpoint(b).Success? && ParseEndpoint(b).used > 0 && GoodEndpoint(ParseEndpoint(b).value[0])
    ensures Fits(|PrintEndpoint(ParseEndpoint(b).value[0])|, ParseEndpoint(b).used, ParseEndpoint(b).clean)
  {
    hide Skip;
  }

  lemma {:induction false} EndpointsSize(b: seq<Byte>, count: nat)
    requires ParseEndpoints(b, count).Success?
    requires forall k :: 0 <= k < |ParseEndpoints(b, count).value| ==> GoodEndpoint(ParseEndpoints(b, count).value[k])
    ensures var r := ParseEndpoints(b, count); Fits(|PrintEndpoints(r.value)|, r.used, r.clean)
    decreases count
  {
    hide ParseEndpoint, GoodEndpoint, PrintEndpoint;
    var r := ParseEndpoints(b, count);
    if count > 0 && ParseEndpoint(b).used > 0 {
      var e, rest := ParseEndpoint(b), ParseEndpoints(b[ParseEndpoint(b).used..], count - 1);
      assert r.value[0] == e.value[0] && r.value[1..] == rest.value;
      assert forall k :: 0 <= k < |rest.value| ==> rest.value[k] == r.value[k + 1];
      EndpointSize(b);
      EndpointsSize(b[e.used..], count - 1);
    } else if count > 0 {
      NoEndpoint(b);
    }
  }

  lemma {:induction false} PrintedAltSetting(a: AltSetting)
    requires GoodAltSetting(a)
    ensures |PrintAltSetting(a)| == a.bLength + |a.extra| + |PrintEndpoints(a.endpoints)|
    ensures a.bNumEndpoints == |a.endpoints| && forall k :: 0 <= k < |a.endpoints| ==> GoodEndpoint(a.endpoints[k])
    ensures PrintEndpoints([]) == []
  {
  }

  lemma {:induction false} AltSettingSize(b: seq<Byte>)
    requires |b| >= 9 && ParseAltSetting(b).Success? && ParseAltSetting(b).used > 0
    requires GoodAltSetting(ParseAltSetting(b).value[0])
    ensures Fits(|PrintAltSetting(ParseAltSetting(b).value[0])|, ParseAltSetting(b).used, ParseAltSetting(b).clean)
  {
    hide ParseAltSetting, PrintAltSetting, Skip, ParseEndpoints, PrintEndpoints, GoodAltSetting, GoodEndpoint;
    AltSettingStarts(b);
    var a, s := ParseAltSetting(b).value[0], Skip(b[b[0]..]);
    PrintedAltSetting(a);
    if !s.clean {
      AltSettingCut(b);
    } else {
      AltSettingWhole(b);
      EndpointsSize(b[b[0] + s.used..], b[4]);
    }
  }

  lemma {:induction false} AltSettingsValue(b: seq<Byte>)
    requires ParseAltSettings(b).Success? && ParseAltSettings(b).used > 0
    ensures |b| >= 9 && ParseAltSetting(b).Success? && 0 < ParseAltSetting(b).used <= |b|
    ensures |ParseAltSetting(b).value| == 1
    ensures var r, a := ParseAltSettings(b), ParseAltSetting(b);
      var rest := ParseAltSettings(b[a.used..]);
      r == a || (rest.Success? && r == Success(a.value + rest.value, a.used + rest.used, a.clean && rest.clean))
  {
    hide Skip, ParseEndpoints, CutOff;
  }

  lemma {:induction false} FirstPrinted(a: AltSetting, i: seq<AltSetting>)
    requires AllGood([a] + i)
    ensures GoodAltSetting(a) && AllGood(i)
    ensures |PrintAltSettings([a] + i)| == |PrintAltSetting(a)| + |PrintAltSettings(i)|
    ensures PrintAltSettings([]) == []
  {
    hide GoodAltSetting, PrintAltSetting;
    assert ([a] + i)[0] == a && ([a] + i)[1..] == i;
    assert forall k :: 0 <= k < |i| ==> i[k] == ([a] + i)[k + 1];
  }

  lemma {:induction false} AltSettingsSize(b: seq<Byte>)
    requires ParseAltSettings(b).Success? && AllGood(ParseAltSettings(b).value)
    ensures var r := ParseAltSettings(b); Fits(|PrintAltSettings(r.value)|, r.used, r.clean)
    decreases |b|
  {
    AltSettingsStart(b);
    hide ParseAltSetting, ParseAltSettings, AllGood, PrintAltSetting, GoodAltSetting;
    var r := ParseAltSettings(b);
    if r.used > 0 {
      AltSettingsValue(b);
      var a := ParseAltSetting(b);
      var rest := if r == a then [] else ParseAltSettings(b[a.used..]).value;
      assert r.value == [a.value[0]] + rest;
      FirstPrinted(a.value[0], rest);
      AltSettingSize(b);
      if r != a {
        AltSettingsSize(b[a.used..]);
      }
    }
  }

  lemma {:induction false} InterfacesValue(b: seq<Byte>, count: nat)
    requires ParseInterfaces(b, count).Success? && count > 0
    ensures var r, s := ParseInterfaces(b, count), Skip(b);
      && s.Success?
      && if !s.clean then r.value == ([], []) else
         var i := ParseAltSettings(b[s.used..]);
         && i.Success? && s.used + i.used <= |b|
         && if i.used == 0 then r.value == (b[..s.used], []) else
            var rest := ParseInterfaces(b[s.used + i.used..], count - 1);
            rest.Success? && r.value == (b[..s.used] + rest.value.0, [i.value] + rest.value.1)
  {
    hide Skip, ParseAltSettings;
  }

  lemma {:induction false} FirstInterfacePrinted(i: Interface, ifs: seq<Interface>)
    requires forall k :: 0 <= k < |[i] + ifs| ==> GoodInterface(([i] + ifs)[k])
    ensures AllGood(i) && (forall k :: 0 <= k < |ifs| ==> GoodInterface(ifs[k]))
    ensures |PrintInterfaces([i] + ifs)| == |PrintAltSettings(i)| + |PrintInterfaces(ifs)|
  {
    hide PrintAltSettings;
    assert ([i] + ifs)[0] == i && ([i] + ifs)[1..] == ifs;
    assert forall k :: 0 <= k < |ifs| ==> ifs[k] == ([i] + ifs)[k + 1];
  }

  lemma {:induction false} NothingPrinted()
    ensures PrintInterfaces([]) == []
  {
  }

  lemma {:induction false} InterfacesSize(b: seq<Byte>, count: nat)
    requires ParseInterfaces(b, count).Success?
    requires forall k :: 0 <= k < |ParseInterfaces(b, count).value.1| ==>
             GoodInterface(ParseInterfaces(b, count).value.1[k])
    ensures var r := ParseInterfaces(b, count); Fits(|r.value.0| + |PrintInterfaces(r.value.1)|, r.used, r.clean)
    decreases count
  {
    NothingPrinted();
    hide ParseInterfaces, ParseAltSettings, PrintInterfaces, Skip, GoodInterface, PrintAltSettings;
    if count == 0 {
      NoInterfaceLeft(b);
    } else {
      InterfacesStart(b, count);
      InterfacesValue(b, count);
      var s := Skip(b);
      if s.clean {
        var i := ParseAltSettings(b[s.used..]);
        if i.used > 0 {
          var rest := ParseInterfaces(b[s.used + i.used..], count - 1);
          FirstInterfacePrinted(i.value, rest.value.1);
          AltSettingsSize(b[s.used..]);
          InterfacesSize(b[s.used + i.used..], count - 1);
        } else {
          AltSettingsLoss(b[s.used..]);
        }
      }
    }
  }

  lemma {:induction false} ConfigSize(b: seq<Byte>)
    requires ParseConfiguration(b).Success? && GoodConfig(ParseConfiguration(b).value)
    ensures var r := ParseConfiguration(b); Fits(|Print(r.value)|, r.used, r.clean)
  {
    hide ParseInterfaces, PrintInterfaces, GoodInterface, Whole;
    InterfacesSize(b[b[0]..], b[4]);
  }

  /** An accepted buffer comes out in full, every byte of what was used in its place, exactly when the parse does
      not end in loss. */
  lemma {:induction false} NothingLostIff(b: seq<Byte>)
    requires ParseConfiguration(b).Success?
    ensures var Success(c, n, _) := ParseConfiguration(b); (GoodConfig(c) && Print(c) == b[..n] <==> !EndsInLoss(b, n))
  {
    CleanIff(b);
    hide ParseConfiguration, GoodConfig, Print, EndsInLoss;
    var r := ParseConfiguration(b);
    if r.clean {
      NothingLost(b);
    } else if GoodConfig(r.value) {
      ConfigSize(b);
    }
  }
}
