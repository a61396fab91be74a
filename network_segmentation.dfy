/** The network segmentation check of app/zta_checks/network_segmentation.py.
    A segment is either an IPv4 network, allowed when it lies inside some allowed
    network, or a VLAN id or name, allowed when it is listed. Network devices check
    their VLANs (switches) or their own allowed segments (routers, firewalls);
    hosts and servers check their segments by plain membership in the allowed
    segments of the network device they are connected to. */
module NetworkSegmentation {
  import opened Wrappers
  import opened JsonValues
  import opened Exceptions
  import opened Builtins
  import opened DomainModels
  import opened Locators
  import opened CheckRuns
  import Ipv4

  const CheckName: string := "Network Segmentation"

  /** A `NetworkSegmentationCheck`: the devices. */
  datatype SegmentationCheck = SegmentationCheck(devices: seq<Device>)

  /** An allowed entry that parses as a network containing `net`. */
  predicate Covers(entry: Json, net: Ipv4.Network)
  {
    Ipv4.NetworkOf(entry).Parsed? && Ipv4.SubnetOf(net, Ipv4.NetworkOf(entry).net)
  }

  /** Which of the entries cover `net`, entry by entry. */
  function CoverFlags(entries: seq<Json>, net: Ipv4.Network): (r: seq<bool>)
    ensures |r| == |entries| && forall k :: 0 <= k < |entries| ==> r[k] == Covers(entries[k], net)
  {
    seq(|entries|, k requires 0 <= k < |entries| => Covers(entries[k], net))
  }

  /** Some flag from `i` on is set, looked at in order as `any` does. */
  predicate AnyFrom(flags: seq<bool>, i: nat)
    requires i <= |flags|
    decreases |flags| - i
  {
    i < |flags| && (flags[i] || AnyFrom(flags, i + 1))
  }

  lemma {:induction false} AnyFromIff(flags: seq<bool>, i: nat)
    requires i <= |flags|
    decreases |flags| - i
    ensures AnyFrom(flags, i) <==> exists k :: i <= k < |flags| && flags[k]
  {
    if i < |flags| {
      AnyFromIff(flags, i + 1);
    }
  }

  /** Some entry from `i` on covers `net`. */
  predicate CoveredFrom(entries: seq<Json>, net: Ipv4.Network, i: nat)
    requires i <= |entries|
  {
    AnyFrom(CoverFlags(entries, net), i)
  }

  lemma CoveredFromIff(entries: seq<Json>, net: Ipv4.Network, i: nat)
    requires i <= |entries|
    ensures CoveredFrom(entries, net, i) <==> exists k :: i <= k < |entries| && Covers(entries[k], net)
  {
    var flags := CoverFlags(entries, net);
    AnyFromIff(flags, i);
    if exists k :: i <= k < |flags| && flags[k] {
      var k :| i <= k < |flags| && flags[k];
      assert Covers(entries[k], net);
    }
  }

  /** `_is_segment_allowed`: an IP segment is allowed when some allowed entry that
      parses as a network contains it (entries that do not parse are skipped); any
      other segment is allowed when it is `in` the allowed segments. */
  function SegmentAllowed(segment: Json, allowed: Json): (r: Outcome<bool>)
    ensures r.Raise? ==> r.exc == TypeError
  {
    match Ipv4.NetworkOf(segment)
    case Parsed(net) =>
      var entries :- Iterate(allowed);
      Ok(CoveredFrom(entries, net, 0))
    case Rejected(_) => Contains(allowed, segment)
  }

  /** All the booleans are true: Python `all(...)` over a list. */
  predicate AllTrue(bs: seq<bool>)
  {
    forall k :: 0 <= k < |bs| ==> bs[k]
  }

  /** `[_is_segment_allowed(x, allowed) for x in items]`, built by `append`; a
      test that raises ends the loop with its TypeError. */
  function SegmentResults(items: seq<Json>, allowed: Json): (r: Outcome<seq<bool>>)
    ensures r.Ok? ==>
      |r.value| == |items| && forall k :: 0 <= k < |items| ==> SegmentAllowed(items[k], allowed) == Ok(r.value[k])
    ensures r.Raise? <==> exists k :: 0 <= k < |items| && SegmentAllowed(items[k], allowed).Raise?
    ensures r.Raise? ==> r.exc == TypeError
  {
    if forall k :: 0 <= k < |items| ==> SegmentAllowed(items[k], allowed).Ok? then
      Ok(seq(|items|, k requires 0 <= k < |items| => SegmentAllowed(items[k], allowed).value))
    else Raise(TypeError)
  }

  /** `[x in compare for x in items]`, built by `append`. */
  function MembershipResults(items: seq<Json>, compare: Json): (r: Outcome<seq<bool>>)
    ensures r.Ok? ==>
      |r.value| == |items| && forall k :: 0 <= k < |items| ==> Contains(compare, items[k]) == Ok(r.value[k])
    ensures r.Raise? <==> exists k :: 0 <= k < |items| && Contains(compare, items[k]).Raise?
    ensures r.Raise? ==> r.exc == TypeError
  {
    if forall k :: 0 <= k < |items| ==> Contains(compare, items[k]).Ok? then
      Ok(seq(|items|, k requires 0 <= k < |items| => Contains(compare, items[k]).value))
    else Raise(TypeError)
  }

  /** `device_config.get("network_segmentation", {}).get("allowed_segments", [])`. */
  function AllowedSegments(config: seq<(string, Json)>): Outcome<Json>
  {
    Get(Lookup(config, "network_segmentation", JObject([])), "allowed_segments", JList([]))
  }

  /** `_check_network_device_segments`: a switch tests each of its VLANs against
      its allowed segments; a router or firewall tests each allowed segment
      against the allowed segments themselves. */
  function NetworkDeviceSegments(d: Device): (r: Outcome<seq<bool>>)
  {
    var allowed :- AllowedSegments(d.configuration);
    if d.deviceType == Switch then
      var vlans :- Iterate(Lookup(d.configuration, "VLANs", JList([])));
      SegmentResults(vlans, allowed)
    else
      var own :- Iterate(allowed);
      SegmentResults(own, allowed)
  }

  /** `device_config.get("connected_to").get("device")`: the hostname of the
      network device a host or server is connected to. */
  function ConnectedName(d: Device): Outcome<Json>
  {
    Get(Lookup(d.configuration, "connected_to", JNull), "device", JNull)
  }

  /** `_check_host_or_server_segments`: each own allowed segment is tested by
      plain membership in the connected device's allowed segments. */
  function HostOrServerSegments(d: Device, devices: seq<Device>): (r: Outcome<seq<bool>>)
  {
    var allowed := Lookup(d.configuration, "allowed_segments", JList([]));
    var name :- ConnectedName(d);
    var connected := FirstDeviceNamed(devices, name, 0);
    if connected.None? then Raise(StopIteration)
    else
      var compare :- AllowedSegments(devices[connected.value].configuration);
      var own :- Iterate(allowed);
      MembershipResults(own, compare)
  }

  /** The segment results of one device, by type. */
  function Segments(d: Device, devices: seq<Device>): Outcome<seq<bool>>
  {
    if d.deviceType in {Router, Switch, Firewall} then NetworkDeviceSegments(d)
    else HostOrServerSegments(d, devices)
  }

  /** The detail text of the segmentation result. */
  function Detail(compliant: bool): string
  {
    "Device has proper network segmentation (network device | proper VLANs/Subnets, "
      + "host and servers | proper VLAN and connected device): " + BoolText(compliant) + "."
  }

  /** The body of the run loop for one device. */
  function DeviceResult(devices: seq<Device>, d: Device): (r: Outcome<ResultCall>)
    ensures r.Ok? ==> r.value.hostname == d.hostname && r.value.check == CheckName
    ensures r.Raise? <==> Segments(d, devices).Raise?
    // The status is `all(compliant)` over the device's segment results.
    ensures r.Ok? ==> (r.value.compliant <==> forall k :: 0 <= k < |Segments(d, devices).value| ==> Segments(d, devices).value[k])
    ensures r.Ok? ==> r.value.detail == Detail(r.value.compliant)
  {
    var results :- Segments(d, devices);
    Ok(ResultCall(d.hostname, CheckName, AllTrue(results), Detail(AllTrue(results))))
  }

  function Evaluator(devices: seq<Device>): Device -> Outcome<ResultCall>
  {
    d => DeviceResult(devices, d)
  }

  /** `_is_segment_allowed`, stopping at the first allowed entry that contains
      an IP segment. */
  method IsSegmentAllowed(segment: Json, allowed: Json) returns (r: Outcome<bool>)
    ensures r == SegmentAllowed(segment, allowed)
  {
    var parsed := Ipv4.NetworkOf(segment);
    if parsed.Rejected? {
      return Contains(allowed, segment);
    }
    var entries := Iterate(allowed);
    if entries.Raise? {
      return Raise(entries.exc);
    }
    var i := 0;
    while i < |entries.value|
      invariant 0 <= i <= |entries.value|
      invariant CoveredFrom(entries.value, parsed.net, i) == CoveredFrom(entries.value, parsed.net, 0)
    {
      if Covers(entries.value[i], parsed.net) {
        return Ok(true);
      }
      i := i + 1;
    }
    return Ok(false);
  }

  /** The loop of `_check_network_device_segments`: one `_is_segment_allowed`
      result appended per item. */
  method AppendSegmentResults(items: seq<Json>, allowed: Json) returns (r: Outcome<seq<bool>>)
    ensures r == SegmentResults(items, allowed)
  {
    var compliant: seq<bool> := [];
    var i := 0;
    while i < |items|
      invariant 0 <= i <= |items| && |compliant| == i
      invariant forall k :: 0 <= k < i ==> SegmentAllowed(items[k], allowed).Ok?
      invariant forall k :: 0 <= k < i ==> compliant[k] == SegmentAllowed(items[k], allowed).value
    {
      var ok := IsSegmentAllowed(items[i], allowed);
      if ok.Raise? {
        return Raise(ok.exc);
      }
      compliant := compliant + [ok.value];
      i := i + 1;
    }
    assert compliant == SegmentResults(items, allowed).value;
    return Ok(compliant);
  }

  /** The loop of `_check_host_or_server_segments`: one `in` result appended
      per item. */
  method AppendMembershipResults(items: seq<Json>, compare: Json) returns (r: Outcome<seq<bool>>)
    ensures r == MembershipResults(items, compare)
  {
    var compliant: seq<bool> := [];
    var i := 0;
    while i < |items|
      invariant 0 <= i <= |items| && |compliant| == i
      invariant forall k :: 0 <= k < i ==> Contains(compare, items[k]).Ok?
      invariant forall k :: 0 <= k < i ==> compliant[k] == Contains(compare, items[k]).value
    {
      var valid := Contains(compare, items[i]);
      if valid.Raise? {
        return Raise(valid.exc);
      }
      compliant := compliant + [valid.value];
      i := i + 1;
    }
    assert compliant == MembershipResults(items, compare).value;
    return Ok(compliant);
  }

  /** `_check_network_device_segments`. */
  method CheckNetworkDeviceSegments(d: Device) returns (r: Outcome<seq<bool>>)
    ensures r == NetworkDeviceSegments(d)
  {
    var allowed := AllowedSegments(d.configuration);
    if allowed.Raise? {
      return Raise(allowed.exc);
    }
    var items: Outcome<seq<Json>>;
    if d.deviceType == Switch {
      items := Iterate(Lookup(d.configuration, "VLANs", JList([])));
    } else {
      items := Iterate(allowed.value);
    }
    if items.Raise? {
      return Raise(items.exc);
    }
    r := AppendSegmentResults(items.value, allowed.value);
  }

  /** `_check_host_or_server_segments`. */
  method CheckHostOrServerSegments(d: Device, devices: seq<Device>) returns (r: Outcome<seq<bool>>)
    ensures r == HostOrServerSegments(d, devices)
  {
    var allowed := Lookup(d.configuration, "allowed_segments", JList([]));
    var name := ConnectedName(d);
    if name.Raise? {
      return Raise(name.exc);
    }
    var connected := FindDevice(devices, name.value);
    if connected.None? {
      return Raise(StopIteration);
    }
    var compare := AllowedSegments(devices[connected.value].configuration);
    if compare.Raise? {
      return Raise(compare.exc);
    }
    var own := Iterate(allowed);
    if own.Raise? {
      return Raise(own.exc);
    }
    r := AppendMembershipResults(own.value, compare.value);
  }

  /** The dispatch on the device type inside the run loop. */
  method CheckSegments(d: Device, devices: seq<Device>) returns (r: Outcome<seq<bool>>)
    ensures r == Segments(d, devices)
  {
    if d.deviceType in {Router, Switch, Firewall} {
      r := CheckNetworkDeviceSegments(d);
    } else {
      r := CheckHostOrServerSegments(d, devices);
    }
  }

  /** `run_network_segmentation_checks`: the add_result calls it makes, in
      order, and the exception that stopped it, if any. */
  method RunNetworkSegmentationChecks(check: SegmentationCheck) returns (t: Trace)
    ensures t == RunTrace(check.devices, Evaluator(check.devices))
  {
    var devices, evaluate := check.devices, Evaluator(check.devices);
    var calls: seq<ResultCall> := [];
    var i := 0;
    RunTraceStart(devices, evaluate);
    while i < |devices|
      invariant 0 <= i <= |devices|
      invariant RunTrace(devices, evaluate) == Prepend(calls, RunTrace(devices[i..], evaluate))
    {
      var device := devices[i];
      var result := CheckSegments(device, devices);
      if result.Raise? {
        RunTraceStop(devices, i, evaluate, calls);
        return Trace(calls, Some(result.exc));
      }
      var compliant := AllTrue(result.value);
      var call := ResultCall(device.hostname, CheckName, compliant, Detail(compliant));
      if !Hashable(device.hostname) {
        RunTraceRefused(devices, i, evaluate, calls);
        return Trace(calls, Some(TypeError));
      }
      RunTraceStep(devices, i, evaluate, calls);
      calls := calls + [call];
      i := i + 1;
    }
    RunTraceEnd(devices, evaluate, calls);
    return Trace(calls, None);
  }

  // ---------------------------------------------------------------- properties

  /** A segment that is not an IP network is allowed exactly when it is `in`
      the allowed segments; on a list, when it is one of them. */
  lemma VlanIsMembership(segment: Json, allowed: Json)
    requires Ipv4.NetworkOf(segment).Rejected?
    ensures SegmentAllowed(segment, allowed) == Contains(allowed, segment)
    ensures allowed.JList? ==> SegmentAllowed(segment, allowed) == Ok(segment in allowed.items)
  {
  }

  /** An IP segment is allowed by a list exactly when one of the list's entries
      parses as a network containing it. */
  lemma IpSegmentIsContainment(segment: Json, allowed: seq<Json>)
    requires Ipv4.NetworkOf(segment).Parsed?
    ensures SegmentAllowed(segment, JList(allowed)) ==
      Ok(exists k :: 0 <= k < |allowed| && Covers(allowed[k], Ipv4.NetworkOf(segment).net))
  {
    CoveredFromIff(allowed, Ipv4.NetworkOf(segment).net, 0);
  }

  /** Every entry a router or firewall lists is allowed by its own list: an IP
      entry contains itself, and any other entry is `in` the list it came from. */
  lemma OwnEntryAllowed(x: Json, allowed: Json)
    requires Iterate(allowed).Ok? && x in Iterate(allowed).value
    ensures SegmentAllowed(x, allowed) == Ok(true)
  {
    match Ipv4.NetworkOf(x)
    case Parsed(net) =>
      var entries := Iterate(allowed).value;
      var k :| 0 <= k < |entries| && entries[k] == x;
      Ipv4.SubnetOfReflexive(net);
      assert Covers(entries[k], net);
      CoveredFromIff(entries, net, 0);
    case Rejected(_) =>
      IteratedIsContained(allowed, x);
  }

  /** A router or firewall whose allowed segments can be read is always
      compliant: every result of its own list against itself is true. */
  lemma RouterAndFirewallAlwaysCompliant(d: Device)
    requires d.deviceType in {Router, Firewall}
    requires AllowedSegments(d.configuration).Ok? && Iterate(AllowedSegments(d.configuration).value).Ok?
    ensures NetworkDeviceSegments(d).Ok? && AllTrue(NetworkDeviceSegments(d).value)
  {
    var allowed := AllowedSegments(d.configuration).value;
    var own := Iterate(allowed).value;
    forall k | 0 <= k < |own|
      ensures SegmentAllowed(own[k], allowed) == Ok(true)
    {
      OwnEntryAllowed(own[k], allowed);
    }
  }

  /** Hosts and servers use plain membership: each result says whether the
      segment is one of the connected device's allowed segments, with no
      containment between networks. */
  lemma HostUsesMembership(d: Device, devices: seq<Device>)
    requires HostOrServerSegments(d, devices).Ok?
    ensures var name := ConnectedName(d).value;
      var compare := AllowedSegments(devices[FirstDeviceNamed(devices, name, 0).value].configuration).value;
      var own := Iterate(Lookup(d.configuration, "allowed_segments", JList([]))).value;
      |HostOrServerSegments(d, devices).value| == |own|
      && forall k :: 0 <= k < |own| ==>
           (compare.JList? ==> HostOrServerSegments(d, devices).value[k] == (own[k] in compare.items))
  {
  }

  /** A host or server connected to a device that is not in the list stops the
      run with StopIteration. */
  lemma MissingConnectedDeviceRaises(d: Device, devices: seq<Device>)
    requires d.deviceType in {Host, Server}
    requires ConnectedName(d).Ok?
    requires forall k :: 0 <= k < |devices| ==> devices[k].hostname != ConnectedName(d).value
    ensures DeviceResult(devices, d) == Raise(StopIteration)
  {
    assert FirstDeviceNamed(devices, ConnectedName(d).value, 0).None?;
    assert HostOrServerSegments(d, devices) == Raise(StopIteration);
    assert Segments(d, devices) == HostOrServerSegments(d, devices);
  }

  /** A device with no segments to check is compliant: `all([])` is True. */
  lemma NoSegmentsIsCompliant(d: Device, devices: seq<Device>)
    requires Segments(d, devices) == Ok([])
    ensures DeviceResult(devices, d).Ok? && DeviceResult(devices, d).value.compliant
  {
  }

  /** A run of the segmentation check makes one "Network Segmentation" call per
      device, in list order, until a device whose segment results raise, or a
      hostname `add_result` cannot record, stops it. */
  lemma RunReportsEachDevice(check: SegmentationCheck)
    ensures var t := RunTrace(check.devices, Evaluator(check.devices));
      && |t.calls| <= |check.devices|
      && (forall k :: 0 <= k < |t.calls| ==>
            t.calls[k].hostname == check.devices[k].hostname && t.calls[k].check == CheckName)
      && (t.raised.None? <==> |t.calls| == |check.devices|)
      && (t.raised.Some? ==>
            || Segments(check.devices[|t.calls|], check.devices).Raise?
            || (Segments(check.devices[|t.calls|], check.devices).Ok? && !Hashable(check.devices[|t.calls|].hostname) && t.raised.value == TypeError))
  {
    OneCallPerDevice(check.devices, Evaluator(check.devices), CheckName);
  }
}
