/** The continuous logging and monitoring check of app/zta_checks/logging.py. A
    device is compliant when logging is enabled, it sends its logs to the
    centralized server (the address of the first device offering "AAA") and it
    records every level its type requires. */
module Logging {
  import opened Wrappers
  import opened JsonValues
  import opened Exceptions
  import opened Builtins
  import opened DomainModels
  import opened Locators
  import opened CheckRuns

  const CheckName: string := "Logging"

  /** A `LoggingCheck`: the devices and the log server located when it was built. */
  datatype LoggingCheck = LoggingCheck(devices: seq<Device>, logServer: Json)

  /** `_get_required_logging_levels`, on the device type string. */
  function RequiredLevels(deviceType: string): (r: seq<string>)
  {
    if deviceType in ["router", "switch", "firewall", "server"] then ["INFO", "WARNING", "ERROR", "FATAL"]
    else if deviceType == "host" then ["INFO", "WARNING"]
    else []
  }

  /** `device_config.get("logging")`: None when the key is missing. */
  function LoggingSection(d: Device): Json
  {
    Lookup(d.configuration, "logging", JNull)
  }

  /** The `log_events` the section lists; only read once the section is a dict. */
  function LogEvents(d: Device): Json
  {
    if LoggingSection(d).JObject? then Lookup(LoggingSection(d).fields, "log_events", JNull) else JNull
  }

  /** The level names as the string values `in` tests for. */
  function LevelValues(levels: seq<string>): (r: seq<Json>)
    ensures |r| == |levels| && forall k :: 0 <= k < |levels| ==> r[k] == JStr(levels[k])
  {
    seq(|levels|, k requires 0 <= k < |levels| => JStr(levels[k]))
  }

  /** Every level the device's type requires is `in` its log_events. */
  predicate AllLevelsLogged(d: Device)
  {
    var required := RequiredLevels(d.deviceType.Name());
    forall k :: 0 <= k < |required| ==> Contains(LogEvents(d), JStr(required[k])) == Ok(true)
  }

  /** The three values the check reports for a device. */
  datatype LoggingFacts = LoggingFacts(enabled: Json, centralized: bool, levels: bool)

  /** `_is_logging_enabled`, `_has_centralized_logging_server` and
      `_has_required_logging_levels` for one device, in that order. */
  function EvaluateLogging(d: Device, logServer: Json): (r: Outcome<LoggingFacts>)
    // Without a logging dict the first `.get` on None raises.
    ensures !LoggingSection(d).JObject? ==> r == Raise(AttributeError)
    // With one, only a log_events value that `in` cannot search raises.
    ensures LoggingSection(d).JObject? ==>
      (r.Raise? <==> !(LogEvents(d).JList? || LogEvents(d).JStr? || LogEvents(d).JObject?))
      && (r.Raise? ==> r.exc == TypeError)
    ensures r.Ok? ==>
      r.value.enabled == Lookup(LoggingSection(d).fields, "enabled", JNull)
      && (r.value.centralized <==> Lookup(LoggingSection(d).fields, "log_server", JNull) == logServer)
      && (r.value.levels <==> AllLevelsLogged(d))
  {
    var section := LoggingSection(d);
    var enabled :- Get(section, "enabled", JNull);
    // Once the section answered one `.get`, it answers the others.
    var server := Lookup(section.fields, "log_server", JNull);
    var events := Lookup(section.fields, "log_events", JNull);
    var required := RequiredLevels(d.deviceType.Name());
    assert events == LogEvents(d);
    var levels :- AllContained(events, LevelValues(required));
    Ok(LoggingFacts(enabled, server == logServer, levels))
  }

  /** `all((is_logging_enabled, has_centralized_logging_server, has_required_logging_levels))`. */
  predicate Compliant(f: LoggingFacts)
  {
    Truthy(f.enabled) && f.centralized && f.levels
  }

  /** The detail text of the logging result. */
  function Detail(f: LoggingFacts, logServer: Json): string
  {
    "Device has logging enabled: " + Str(f.enabled) + ". \n"
      + "Device has expected centralized logging server (" + Str(logServer) + "): " + BoolText(f.centralized) + ". \n"
      + "Device has required logging level (hosts: INFO, WARNING | all others: INFO, WARNING, ERROR, FATAL): "
      + BoolText(f.levels) + "."
  }

  /** The body of the run loop for one device. */
  function DeviceResult(logServer: Json, d: Device): (r: Outcome<ResultCall>)
    ensures r.Ok? ==> r.value.hostname == d.hostname && r.value.check == CheckName
    ensures r.Raise? <==> EvaluateLogging(d, logServer).Raise?
    // The status and the three-line detail both come from the device's facts.
    ensures r.Ok? ==> r.value.compliant == Compliant(EvaluateLogging(d, logServer).value)
    ensures r.Ok? ==> r.value.detail == Detail(EvaluateLogging(d, logServer).value, logServer)
  {
    var f :- EvaluateLogging(d, logServer);
    Ok(ResultCall(d.hostname, CheckName, Compliant(f), Detail(f, logServer)))
  }

  function Evaluator(logServer: Json): Device -> Outcome<ResultCall>
  {
    d => DeviceResult(logServer, d)
  }

  /** `_get_logging_server_ip`: the address of the first device offering "AAA",
      None when no device offers it. */
  method LoggingServerIp(devices: seq<Device>) returns (r: Outcome<Json>)
    ensures r == ProviderAddress(devices, "AAA", JNull)
  {
    var i := 0;
    while i < |devices|
      invariant 0 <= i <= |devices|
      invariant FirstYesFrom(Answers(devices, "AAA"), i) == FirstYesFrom(Answers(devices, "AAA"), 0)
    {
      var offers := ProvidesService(devices[i], "AAA");
      if offers.Raise? {
        return Raise(offers.exc);
      }
      if offers.value {
        return Ok(devices[i].ipAddress);
      }
      i := i + 1;
    }
    return Ok(JNull);
  }

  /** `LoggingCheck(devices)`. */
  method NewLoggingCheck(devices: seq<Device>) returns (r: Outcome<LoggingCheck>)
    ensures r.Ok? <==> ProviderAddress(devices, "AAA", JNull).Ok?
    ensures r.Ok? ==> r.value == LoggingCheck(devices, ProviderAddress(devices, "AAA", JNull).value)
  {
    var server := LoggingServerIp(devices);
    if server.Raise? {
      return Raise(server.exc);
    }
    return Ok(LoggingCheck(devices, server.value));
  }

  /** `run_logging_checks`: the add_result calls it makes, in order, and the
      exception that stopped it, if any. */
  method RunLoggingChecks(check: LoggingCheck) returns (t: Trace)
    ensures t == RunTrace(check.devices, Evaluator(check.logServer))
  {
    var devices, evaluate := check.devices, Evaluator(check.logServer);
    var calls: seq<ResultCall> := [];
    var i := 0;
    RunTraceStart(devices, evaluate);
    while i < |devices|
      invariant 0 <= i <= |devices|
      invariant RunTrace(devices, evaluate) == Prepend(calls, RunTrace(devices[i..], evaluate))
    {
      var device := devices[i];
      var facts := EvaluateLogging(device, check.logServer);
      if facts.Raise? {
        RunTraceStop(devices, i, evaluate, calls);
        return Trace(calls, Some(facts.exc));
      }
      var call := ResultCall(device.hostname, CheckName, Compliant(facts.value), Detail(facts.value, check.logServer));
      assert evaluate(device) == Ok(call);
      if !Hashable(device.hostname) {
        RunTraceRefused(devices, i, evaluate, calls);
        return Trace(calls, Some(TypeError));
      }
      RunTraceStep(devices, i, evaluate, calls);
      calls := calls + [call];
      i := i + 1;
    }
    RunTraceEnd(devices, evaluate, calls);
    return Trace(calls, None);
  }

  // ---------------------------------------------------------------- properties

  /** Hosts need INFO and WARNING; every other device type needs INFO, WARNING,
      ERROR and FATAL. */
  lemma LevelsByType(t: DeviceType)
    ensures t == Host ==> RequiredLevels(t.Name()) == ["INFO", "WARNING"]
    ensures t != Host ==> RequiredLevels(t.Name()) == ["INFO", "WARNING", "ERROR", "FATAL"]
    ensures forall s :: s !in DeviceTypes ==> RequiredLevels(s) == []
  {
  }

  /** A device is compliant exactly when logging is enabled, its log_server is
      the located server and every required level is among its log_events. */
  lemma CompliantIff(d: Device, logServer: Json)
    requires DeviceResult(logServer, d).Ok?
    ensures DeviceResult(logServer, d).value.compliant <==>
      Truthy(Lookup(LoggingSection(d).fields, "enabled", JNull))
      && Lookup(LoggingSection(d).fields, "log_server", JNull) == logServer
      && AllLevelsLogged(d)
  {
  }

  /** `enabled: False` makes the device non-compliant whatever else holds. */
  lemma DisabledIsNotCompliant(d: Device, logServer: Json)
    requires DeviceResult(logServer, d).Ok?
    requires Lookup(LoggingSection(d).fields, "enabled", JNull) == JBool(false)
    ensures !DeviceResult(logServer, d).value.compliant
  {
    CompliantIff(d, logServer);
  }

  /** A router, switch, firewall or server logging only INFO and WARNING is not
      compliant, and neither is a host logging only INFO. */
  lemma MissingLevelIsNotCompliant(d: Device, logServer: Json)
    requires LoggingSection(d).JObject?
    requires (d.deviceType != Host && LogEvents(d) == JList([JStr("INFO"), JStr("WARNING")]))
          || (d.deviceType == Host && LogEvents(d) == JList([JStr("INFO")]))
    ensures DeviceResult(logServer, d).Ok? && !DeviceResult(logServer, d).value.compliant
  {
    LevelsByType(d.deviceType);
    var required := RequiredLevels(d.deviceType.Name());
    var missing := if d.deviceType == Host then 1 else 2;
    assert JStr(required[missing]) !in LogEvents(d).items;
    assert !AllLevelsLogged(d);
    assert EvaluateLogging(d, logServer).Ok?;
  }

  /** A device without a logging section stops the run with AttributeError. */
  lemma MissingSectionRaises(d: Device, logServer: Json)
    requires !HasKey(d.configuration, "logging")
    ensures DeviceResult(logServer, d) == Raise(AttributeError)
  {
    assert LoggingSection(d) == JNull;
    assert EvaluateLogging(d, logServer) == Raise(AttributeError);
  }

  /** A log_server that differs from the located server fails the centralized
      test, an empty one included whenever a server was located. */
  lemma OtherServerIsNotCompliant(d: Device, logServer: Json)
    requires DeviceResult(logServer, d).Ok?
    requires Lookup(LoggingSection(d).fields, "log_server", JNull) != logServer
    ensures !DeviceResult(logServer, d).value.compliant
  {
  }

  /** With no device offering "AAA" the located server is None, so a device
      without a log_server passes the centralized test. */
  lemma NoServerAnywhereStillCentralized(d: Device)
    requires LoggingSection(d).JObject? && !HasKey(LoggingSection(d).fields, "log_server")
    requires EvaluateLogging(d, JNull).Ok?
    ensures EvaluateLogging(d, JNull).value.centralized
  {
  }

  /** A run of the logging check makes one "Logging" call per device, in list
      order, until a device without a usable logging section, or a hostname
      `add_result` cannot record, stops it. */
  lemma RunReportsEachDevice(check: LoggingCheck)
    ensures var t := RunTrace(check.devices, Evaluator(check.logServer));
      && |t.calls| <= |check.devices|
      && (forall k :: 0 <= k < |t.calls| ==>
            t.calls[k].hostname == check.devices[k].hostname && t.calls[k].check == CheckName)
      && (t.raised.None? <==> |t.calls| == |check.devices|)
      && (t.raised.Some? ==>
            || EvaluateLogging(check.devices[|t.calls|], check.logServer).Raise?
            || (EvaluateLogging(check.devices[|t.calls|], check.logServer).Ok? && !Hashable(check.devices[|t.calls|].hostname) && t.raised.value == TypeError))
  {
    OneCallPerDevice(check.devices, Evaluator(check.logServer), CheckName);
  }
}
