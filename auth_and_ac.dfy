/** The authentication and access control check of
    app/zta_checks/auth_and_ac.py. A device is compliant when auth is enabled, it
    points at the centralized AAA server (the address of the first device offering
    "AAA") and it meets the access-control rule of its type: a host belongs to one
    user, a server is governed by an ACL, a network device admits admins only. */
module AuthAndAC {
  import opened Wrappers
  import opened JsonValues
  import opened Exceptions
  import opened Builtins
  import opened DomainModels
  import opened Locators
  import opened CheckRuns

  const CheckName: string := "Auth and AC"

  /** An `AuthAndACCheck`: devices, users and the AAA server located when it was
      built. */
  datatype AuthCheck = AuthCheck(devices: seq<Device>, users: seq<User>, aaaServer: Json)

  /** `device_config.get("auth", {})`. */
  function AuthSection(d: Device): Json
  {
    Lookup(d.configuration, "auth", JObject([]))
  }

  /** `_is_auth_enabled`: `auth.enabled`, False when either is absent. */
  function IsAuthEnabled(d: Device): (r: Outcome<Json>)
    ensures !HasKey(d.configuration, "auth") ==> r == Ok(JBool(false))
    ensures r.Raise? <==> !AuthSection(d).JObject?
    ensures r.Ok? ==> r.value == Lookup(AuthSection(d).fields, "enabled", JBool(false))
    ensures r.Ok? && !HasKey(AuthSection(d).fields, "enabled") ==> r.value == JBool(false)
  {
    Get(AuthSection(d), "enabled", JBool(false))
  }

  /** `_has_centralized_aaa_server`: `auth.aaa_server` equals the located server. */
  function HasCentralizedAaa(d: Device, aaaServer: Json): (r: Outcome<bool>)
    ensures r.Raise? <==> !AuthSection(d).JObject?
    ensures r.Ok? ==> (r.value <==> Lookup(AuthSection(d).fields, "aaa_server", JNull) == aaaServer)
  {
    var server :- Get(AuthSection(d), "aaa_server", JNull);
    Ok(server == aaaServer)
  }

  /** The user references the device: its hostname is among the user's devices. */
  predicate References(u: User, hostname: Json)
  {
    hostname in u.devices
  }

  /** The server rule from user `i` on: every user referencing the server must be
      in a non-empty `acl["Allow"]`; the first one that is not decides False. */
  function ServerAclFrom(hostname: Json, acl: Json, users: seq<User>, i: nat): (r: Outcome<bool>)
    requires i <= |users|
    decreases |users| - i
  {
    if i == |users| then Ok(true)
    else if !References(users[i], hostname) then ServerAclFrom(hostname, acl, users, i + 1)
    else
      var allow :- Get(acl, "Allow", JList([]));
      if !Truthy(allow) then Ok(false)
      else
        var member :- Contains(allow, users[i].username);
        if !member then Ok(false) else ServerAclFrom(hostname, acl, users, i + 1)
  }

  /** The network-device rule from user `i` on: no user referencing the device
      lacks the "admin" role. */
  function AdminOnlyFrom(hostname: Json, users: seq<User>, i: nat): (r: bool)
    requires i <= |users|
    decreases |users| - i
    ensures r <==> forall k :: i <= k < |users| && References(users[k], hostname) ==> JStr("admin") in users[k].roles
  {
    if i == |users| then true
    else if References(users[i], hostname) && JStr("admin") !in users[i].roles then false
    else AdminOnlyFrom(hostname, users, i + 1)
  }

  /** `_has_access_controls`, by device type. */
  function AccessControls(d: Device, users: seq<User>): (r: Outcome<bool>)
  {
    match d.deviceType
    case Host =>
      var owner :- Get(AuthSection(d), "assigned_user", JStr(""));
      var matching := FirstUserNamed(users, owner, 0);
      Ok(matching.Some? && |users[matching.value].devices| <= 1)
    case Server =>
      var acl :- Get(AuthSection(d), "acl", JObject([]));
      if !Truthy(acl) then Ok(false) else ServerAclFrom(d.hostname, acl, users, 0)
    case _ => Ok(AdminOnlyFrom(d.hostname, users, 0))
  }

  /** The three values the check reports for a device. */
  datatype AuthFacts = AuthFacts(enabled: Json, centralized: bool, accessControls: bool)

  /** The three predicates of the run loop for one device, in order. */
  function EvaluateAuth(d: Device, users: seq<User>, aaaServer: Json): (r: Outcome<AuthFacts>)
    ensures r.Ok? ==> AuthSection(d).JObject? && AccessControls(d, users).Ok?
  {
    var enabled :- IsAuthEnabled(d);
    // The section answered `.get` once, so it answers the second too.
    var centralized := HasCentralizedAaa(d, aaaServer).value;
    var access :- AccessControls(d, users);
    Ok(AuthFacts(enabled, centralized, access))
  }

  /** `all((is_auth_enabled, has_centralized_aaa_server, has_access_controls))`. */
  predicate Compliant(f: AuthFacts)
  {
    Truthy(f.enabled) && f.centralized && f.accessControls
  }

  /** The detail text of the auth result (it ends without a period). */
  function Detail(f: AuthFacts, aaaServer: Json): string
  {
    "Device has auth enabled: " + Str(f.enabled) + ". \n"
      + "Device has expected centralized AAA server (" + Str(aaaServer) + "): " + BoolText(f.centralized) + ". \n"
      + "Device has required access controls (One user per host | server w/ ACL | network devices admin only): "
      + BoolText(f.accessControls)
  }

  /** The body of the run loop for one device. */
  function DeviceResult(users: seq<User>, aaaServer: Json, d: Device): (r: Outcome<ResultCall>)
    ensures r.Ok? ==> r.value.hostname == d.hostname && r.value.check == CheckName
    ensures r.Raise? <==> EvaluateAuth(d, users, aaaServer).Raise?
  {
    var f :- EvaluateAuth(d, users, aaaServer);
    Ok(ResultCall(d.hostname, CheckName, Compliant(f), Detail(f, aaaServer)))
  }

  function Evaluator(users: seq<User>, aaaServer: Json): Device -> Outcome<ResultCall>
  {
    d => DeviceResult(users, aaaServer, d)
  }

  /** `_get_aaa_server_ip`: the address of the first device offering "AAA", the
      empty string when no device offers it. */
  method AaaServerIp(devices: seq<Device>) returns (r: Outcome<Json>)
    ensures r == ProviderAddress(devices, "AAA", JStr(""))
  {
    var i := 0;
    while i < |devices|
      invariant 0 <= i <= |devices|
      invariant FirstYesFrom(Answers(devices, "AAA"), i) == FirstYesFrom(Answers(devices, "AAA"), 0)
    {
      var offers := ProvidesService(devices[i], "AAA");
      if offers.Raise? {
        return Raise(offers.exc);
      }
      if offers.value {
        return Ok(devices[i].ipAddress);
      }
      i := i + 1;
    }
    return Ok(JStr(""));
  }

  /** `AuthAndACCheck(devices, user_data)`. */
  method NewAuthCheck(devices: seq<Device>, users: seq<User>) returns (r: Outcome<AuthCheck>)
    ensures r.Ok? <==> ProviderAddress(devices, "AAA", JStr("")).Ok?
    ensures r.Ok? ==> r.value == AuthCheck(devices, users, ProviderAddress(devices, "AAA", JStr("")).value)
  {
    var server := AaaServerIp(devices);
    if server.Raise? {
      return Raise(server.exc);
    }
    return Ok(AuthCheck(devices, users, server.value));
  }

  /** `_has_access_controls`, walking the users with an early return. */
  method HasAccessControls(device: Device, users: seq<User>) returns (r: Outcome<bool>)
    ensures r == AccessControls(device, users)
  {
    var auth := AuthSection(device);
    if device.deviceType == Host {
      var owner := Get(auth, "assigned_user", JStr(""));
      if owner.Raise? {
        return Raise(owner.exc);
      }
      var matching := FindUser(users, owner.value);
      if matching.None? || |users[matching.value].devices| > 1 {
        return Ok(false);
      }
    } else if device.deviceType == Server {
      var acl := Get(auth, "acl", JObject([]));
      if acl.Raise? {
        return Raise(acl.exc);
      }
      if !Truthy(acl.value) {
        return Ok(false);
      }
      var i := 0;
      while i < |users|
        invariant 0 <= i <= |users|
        invariant ServerAclFrom(device.hostname, acl.value, users, i) == AccessControls(device, users)
      {
        if References(users[i], device.hostname) {
          var allow := Get(acl.value, "Allow", JList([]));
          if allow.Raise? {
            return Raise(allow.exc);
          }
          if !Truthy(allow.value) {
            return Ok(false);
          }
          var member := Contains(allow.value, users[i].username);
          if member.Raise? {
            return Raise(member.exc);
          }
          if !member.value {
            return Ok(false);
          }
        }
        i := i + 1;
      }
    } else {
      var i := 0;
      while i < |users|
        invariant 0 <= i <= |users|
        invariant AdminOnlyFrom(device.hostname, users, i) == AdminOnlyFrom(device.hostname, users, 0)
      {
        if References(users[i], device.hostname) && JStr("admin") !in users[i].roles {
          return Ok(false);
        }
        i := i + 1;
      }
    }
    return Ok(true);
  }

  /** `run_auth_and_ac_checks`: the add_result calls it makes, in order, and the
      exception that stopped it, if any. */
  method RunAuthAndACChecks(check: AuthCheck) returns (t: Trace)
    ensures t == RunTrace(check.devices, Evaluator(check.users, check.aaaServer))
  {
    var devices, evaluate := check.devices, Evaluator(check.users, check.aaaServer);
    var calls: seq<ResultCall> := [];
    var i := 0;
    RunTraceStart(devices, evaluate);
    while i < |devices|
      invariant 0 <= i <= |devices|
      invariant RunTrace(devices, evaluate) == Prepend(calls, RunTrace(devices[i..], evaluate))
    {
      var device := devices[i];
      var facts := CheckDevice(device, check.users, check.aaaServer);
      if facts.Raise? {
        RunTraceStop(devices, i, evaluate, calls);
        return Trace(calls, Some(facts.exc));
      }
      var call := ResultCall(device.hostname, CheckName, Compliant(facts.value), Detail(facts.value, check.aaaServer));
      assert evaluate(device) == Ok(call);
      if !Hashable(device.hostname) {
        RunTraceRefused(devices, i, evaluate, calls);
        return Trace(calls, Some(TypeError));
      }
      RunTraceStep(devices, i, evaluate, calls);
      calls := calls + [call];
      i := i + 1;
    }
    RunTraceEnd(devices, evaluate, calls);
    return Trace(calls, None);
  }

  /** The body of the run loop: the three predicates, in order. */
  method CheckDevice(device: Device, users: seq<User>, aaaServer: Json) returns (r: Outcome<AuthFacts>)
    ensures r == EvaluateAuth(device, users, aaaServer)
  {
    var enabled := IsAuthEnabled(device);
    if enabled.Raise? {
      return Raise(enabled.exc);
    }
    var centralized := HasCentralizedAaa(device, aaaServer).value;
    var access := HasAccessControls(device, users);
    if access.Raise? {
      return Raise(access.exc);
    }
    return Ok(AuthFacts(enabled.value, centralized, access.value));
  }

  // ---------------------------------------------------------------- properties

  /** A device is compliant exactly when auth is enabled, its aaa_server is the
      located server and its type's access-control rule holds. */
  lemma CompliantIff(d: Device, users: seq<User>, aaaServer: Json)
    requires DeviceResult(users, aaaServer, d).Ok?
    ensures DeviceResult(users, aaaServer, d).value.compliant <==>
      Truthy(Lookup(AuthSection(d).fields, "enabled", JBool(false)))
      && Lookup(AuthSection(d).fields, "aaa_server", JNull) == aaaServer
      && AccessControls(d, users) == Ok(true)
  {
    var f := EvaluateAuth(d, users, aaaServer).value;
    assert DeviceResult(users, aaaServer, d).value.compliant == Compliant(f);
    assert f.enabled == Lookup(AuthSection(d).fields, "enabled", JBool(false));
    assert f.centralized <==> Lookup(AuthSection(d).fields, "aaa_server", JNull) == aaaServer;
    assert AccessControls(d, users) == Ok(f.accessControls);
  }

  /** Without an auth section, auth counts as disabled and the device is not
      compliant. */
  lemma NoAuthSectionIsNotCompliant(d: Device, users: seq<User>, aaaServer: Json)
    requires !HasKey(d.configuration, "auth")
    requires DeviceResult(users, aaaServer, d).Ok?
    ensures !DeviceResult(users, aaaServer, d).value.compliant
  {
    CompliantIff(d, users, aaaServer);
    assert AuthSection(d) == JObject([]);
  }

  /** Host rule: met exactly when the first user named by `assigned_user` exists
      and has at most one device. */
  lemma HostRule(d: Device, users: seq<User>)
    requires d.deviceType == Host && AuthSection(d).JObject?
    ensures var owner := Lookup(AuthSection(d).fields, "assigned_user", JStr(""));
      AccessControls(d, users) == Ok(true) <==>
        exists k :: 0 <= k < |users| && users[k].username == owner && |users[k].devices| <= 1
                    && forall j :: 0 <= j < k ==> users[j].username != owner
  {
    var owner := Lookup(AuthSection(d).fields, "assigned_user", JStr(""));
    var m := FirstUserNamed(users, owner, 0);
    if m.Some? {
      forall k | 0 <= k < |users| && users[k].username == owner && forall j :: 0 <= j < k ==> users[j].username != owner
        ensures k == m.value
      {
      }
    }
  }

  /** Host rule: the owner user's roles are never looked at. */
  lemma HostRuleIgnoresRoles(d: Device, users: seq<User>, others: seq<User>)
    requires d.deviceType == Host
    requires |others| == |users|
    requires forall k :: 0 <= k < |users| ==>
      others[k].username == users[k].username && others[k].devices == users[k].devices
    ensures AccessControls(d, users) == AccessControls(d, others)
  {
    var auth := AuthSection(d);
    if auth.JObject? {
      var owner := Lookup(auth.fields, "assigned_user", JStr(""));
      SameNamesSameMatch(users, others, owner, 0);
    }
  }

  /** Users with the same usernames match the same index. */
  lemma {:induction false} SameNamesSameMatch(users: seq<User>, others: seq<User>, name: Json, i: nat)
    requires i <= |users| == |others|
    requires forall k :: 0 <= k < |users| ==> others[k].username == users[k].username
    decreases |users| - i
    ensures FirstUserNamed(users, name, i) == FirstUserNamed(others, name, i)
  {
    if i < |users| {
      SameNamesSameMatch(users, others, name, i + 1);
    }
  }

  /** Server rule, without a usable ACL: a missing or empty `acl` fails. */
  lemma ServerWithoutAclFails(d: Device, users: seq<User>)
    requires d.deviceType == Server && AuthSection(d).JObject?
    requires !Truthy(Lookup(AuthSection(d).fields, "acl", JObject([])))
    ensures AccessControls(d, users) == Ok(false)
  {
  }

  /** Server rule, with an ACL whose Allow list is a non-empty list: met exactly
      when every user referencing the server is in that list. */
  lemma {:induction false} ServerAclMeaning(hostname: Json, acl: Json, users: seq<User>, i: nat)
    requires i <= |users|
    requires acl.JObject? && Lookup(acl.fields, "Allow", JList([])).JList?
    requires Lookup(acl.fields, "Allow", JList([])).items != []
    decreases |users| - i
    ensures ServerAclFrom(hostname, acl, users, i) == Ok(
      forall k :: i <= k < |users| && References(users[k], hostname) ==>
        users[k].username in Lookup(acl.fields, "Allow", JList([])).items)
  {
    if i < |users| {
      ServerAclMeaning(hostname, acl, users, i + 1);
    }
  }

  /** Server rule, with an ACL whose Allow list is empty or missing: any user
      referencing the server makes it fail, and with none it holds. */
  lemma {:induction false} ServerEmptyAllow(hostname: Json, acl: Json, users: seq<User>, i: nat)
    requires i <= |users|
    requires acl.JObject? && !Truthy(Lookup(acl.fields, "Allow", JList([])))
    decreases |users| - i
    ensures ServerAclFrom(hostname, acl, users, i) == Ok(forall k :: i <= k < |users| ==> !References(users[k], hostname))
  {
    if i < |users| {
      ServerEmptyAllow(hostname, acl, users, i + 1);
    }
  }

  /** Router, switch and firewall rule: met exactly when every user referencing
      the device has the "admin" role; with no referencing user it holds. */
  lemma NetworkDeviceRule(d: Device, users: seq<User>)
    requires d.deviceType in {Router, Switch, Firewall}
    ensures AccessControls(d, users) == Ok(forall k :: 0 <= k < |users| && References(users[k], d.hostname) ==>
                                               JStr("admin") in users[k].roles)
  {
  }

  /** A run of the auth check makes one "Auth and AC" call per device, in list
      order, until a device whose evaluation raises, or a hostname `add_result`
      cannot record, stops it. */
  lemma RunReportsEachDevice(check: AuthCheck)
    ensures var t := RunTrace(check.devices, Evaluator(check.users, check.aaaServer));
      && |t.calls| <= |check.devices|
      && (forall k :: 0 <= k < |t.calls| ==>
            t.calls[k].hostname == check.devices[k].hostname && t.calls[k].check == CheckName)
      && (t.raised.None? <==> |t.calls| == |check.devices|)
      && (t.raised.Some? ==>
            || EvaluateAuth(check.devices[|t.calls|], check.users, check.aaaServer).Raise?
            || (EvaluateAuth(check.devices[|t.calls|], check.users, check.aaaServer).Ok? && !Hashable(check.devices[|t.calls|].hostname) && t.raised.value == TypeError))
  {
    OneCallPerDevice(check.devices, Evaluator(check.users, check.aaaServer), CheckName);
  }
}
