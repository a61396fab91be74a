/** The least privilege check of app/zta_checks/least_privilege.py. A host is
    compliant when its assigned user holds one of the roles the host allows; any
    other device is compliant when every name on its ACL's "allow" list is a known
    username. */
module LeastPrivilege {
  import opened Wrappers
  import opened JsonValues
  import opened Exceptions
  import opened Builtins
  import opened DomainModels
  import opened Locators
  import opened CheckRuns
  import AuthAndAC

  const CheckName: string := "Least Privilege"

  /** A `LeastPrivilegeCheck`: the devices and the users. */
  datatype LeastPrivilegeCheck = LeastPrivilegeCheck(devices: seq<Device>, users: seq<User>)

  /** `[user.username for user in users]`. */
  function Usernames(users: seq<User>): (r: seq<Json>)
    ensures |r| == |users| && forall k :: 0 <= k < |users| ==> r[k] == users[k].username
  {
    seq(|users|, k requires 0 <= k < |users| => users[k].username)
  }

  /** Some user has the username `name`: `name in valid_users`. */
  predicate KnownUser(users: seq<User>, name: Json)
  {
    exists j :: 0 <= j < |users| && users[j].username == name
  }

  /** `any(role in roles for role in allowed)`. */
  predicate AnyRoleHeld(allowed: seq<Json>, roles: seq<Json>)
  {
    exists k :: 0 <= k < |allowed| && allowed[k] in roles
  }

  /** The host branch: the assigned user (first user with that username; none
      raises StopIteration) must hold one of the host's roles. The username
      comparison the source repeats always holds for the user `next` found. */
  function HostPermission(d: Device, users: seq<User>): (r: Outcome<bool>)
  {
    var owner :- Get(AuthAndAC.AuthSection(d), "assigned_user", JStr(""));
    var allowed := Lookup(d.configuration, "roles", JList([]));
    var found := FirstUserNamed(users, owner, 0);
    if found.None? then Raise(StopIteration)
    else
      var roles :- Iterate(allowed);
      Ok(AnyRoleHeld(roles, users[found.value].roles))
  }

  /** `auth.get("acl", {}).get("allow", [])`. */
  function AllowList(d: Device): Outcome<Json>
  {
    var acl :- Get(AuthAndAC.AuthSection(d), "acl", JObject([]));
    Get(acl, "allow", JList([]))
  }

  /** The other branch: one result per name the ACL allows, true when it is a
      known username. */
  function AclPermissions(d: Device, users: seq<User>): (r: Outcome<seq<bool>>)
    ensures r.Raise? <==> AllowList(d).Raise? || Iterate(AllowList(d).value).Raise?
    ensures r.Ok? ==>
      var names := Iterate(AllowList(d).value).value;
      |r.value| == |names|
      && forall k :: 0 <= k < |names| ==>
           (r.value[k] <==> KnownUser(users, names[k]))
  {
    var allow :- AllowList(d);
    var names :- Iterate(allow);
    var valid := Usernames(users);
    assert forall k :: 0 <= k < |names| ==>
      (names[k] in valid <==> KnownUser(users, names[k])) by {
      forall k | 0 <= k < |names| && names[k] in valid
        ensures KnownUser(users, names[k])
      {
        var j :| 0 <= j < |valid| && valid[j] == names[k];
        assert users[j].username == names[k];
      }
    }
    Ok(seq(|names|, k requires 0 <= k < |names| => names[k] in valid))
  }

  /** The `compliant` list the loop body builds for one device. */
  function Permissions(d: Device, users: seq<User>): (r: Outcome<seq<bool>>)
  {
    if d.deviceType == Host then
      var b :- HostPermission(d, users);
      Ok([b])
    else AclPermissions(d, users)
  }

  /** All the booleans are true: `all(compliant)`. */
  predicate AllTrue(bs: seq<bool>)
  {
    forall k :: 0 <= k < |bs| ==> bs[k]
  }

  /** The detail text of the least privilege result. */
  function Detail(compliant: bool): string
  {
    "Device has proper permissions for users: " + BoolText(compliant) + "."
  }

  /** The body of the run loop for one device. */
  function DeviceResult(users: seq<User>, d: Device): (r: Outcome<ResultCall>)
    ensures r.Ok? ==> r.value.hostname == d.hostname && r.value.check == CheckName
    ensures r.Raise? <==> Permissions(d, users).Raise?
    // The status is `all(...)` over the per-user results, and the detail repeats it.
    ensures r.Ok? ==> (r.value.compliant <==> forall k :: 0 <= k < |Permissions(d, users).value| ==> Permissions(d, users).value[k])
    ensures r.Ok? ==> r.value.detail == Detail(r.value.compliant)
  {
    var results :- Permissions(d, users);
    Ok(ResultCall(d.hostname, CheckName, AllTrue(results), Detail(AllTrue(results))))
  }

  function Evaluator(users: seq<User>): Device -> Outcome<ResultCall>
  {
    d => DeviceResult(users, d)
  }

  /** `any(...)`: stops at the first allowed role the user holds. */
  method AnyRole(allowed: seq<Json>, roles: seq<Json>) returns (r: bool)
    ensures r == AnyRoleHeld(allowed, roles)
  {
    var i := 0;
    while i < |allowed|
      invariant 0 <= i <= |allowed|
      invariant forall k :: 0 <= k < i ==> allowed[k] !in roles
    {
      if allowed[i] in roles {
        return true;
      }
      i := i + 1;
    }
    return false;
  }

  /** The host branch of the loop body. */
  method CheckHost(d: Device, users: seq<User>) returns (r: Outcome<bool>)
    ensures r == HostPermission(d, users)
  {
    var owner := Get(AuthAndAC.AuthSection(d), "assigned_user", JStr(""));
    if owner.Raise? {
      return Raise(owner.exc);
    }
    var allowed := Lookup(d.configuration, "roles", JList([]));
    var found := FindUser(users, owner.value);
    if found.None? {
      return Raise(StopIteration);
    }
    var roles := Iterate(allowed);
    if roles.Raise? {
      return Raise(roles.exc);
    }
    var held := AnyRole(roles.value, users[found.value].roles);
    return Ok(held);
  }

  /** The other branch of the loop body: one result appended per allowed name. */
  method CheckAcl(d: Device, users: seq<User>) returns (r: Outcome<seq<bool>>)
    ensures r == AclPermissions(d, users)
  {
    var allow := AllowList(d);
    if allow.Raise? {
      return Raise(allow.exc);
    }
    var names := Iterate(allow.value);
    if names.Raise? {
      return Raise(names.exc);
    }
    var valid := Usernames(users);
    var compliant: seq<bool> := [];
    var i := 0;
    while i < |names.value|
      invariant 0 <= i <= |names.value| && |compliant| == i
      invariant forall k :: 0 <= k < i ==> compliant[k] == (names.value[k] in valid)
    {
      compliant := compliant + [names.value[i] in valid];
      i := i + 1;
    }
    assert compliant == AclPermissions(d, users).value;
    return Ok(compliant);
  }

  /** The loop body's dispatch on the device type. */
  method CheckPermissions(d: Device, users: seq<User>) returns (r: Outcome<seq<bool>>)
    ensures r == Permissions(d, users)
  {
    if d.deviceType == Host {
      var b := CheckHost(d, users);
      if b.Raise? {
        return Raise(b.exc);
      }
      return Ok([b.value]);
    }
    r := CheckAcl(d, users);
  }

  /** `run_least_privilege_check`: the add_result calls it makes, in order, and
      the exception that stopped it, if any. */
  method RunLeastPrivilegeCheck(check: LeastPrivilegeCheck) returns (t: Trace)
    ensures t == RunTrace(check.devices, Evaluator(check.users))
  {
    var devices, evaluate := check.devices, Evaluator(check.users);
    var calls: seq<ResultCall> := [];
    var i := 0;
    RunTraceStart(devices, evaluate);
    while i < |devices|
      invariant 0 <= i <= |devices|
      invariant RunTrace(devices, evaluate) == Prepend(calls, RunTrace(devices[i..], evaluate))
    {
      var device := devices[i];
      var result := CheckPermissions(device, check.users);
      if result.Raise? {
        RunTraceStop(devices, i, evaluate, calls);
        return Trace(calls, Some(result.exc));
      }
      var compliant := AllTrue(result.value);
      var call := ResultCall(device.hostname, CheckName, compliant, Detail(compliant));
      if !Hashable(device.hostname) {
        RunTraceRefused(devices, i, evaluate, calls);
        return Trace(calls, Some(TypeError));
      }
      RunTraceStep(devices, i, evaluate, calls);
      calls := calls + [call];
      i := i + 1;
    }
    RunTraceEnd(devices, evaluate, calls);
    return Trace(calls, None);
  }

  // ---------------------------------------------------------------- properties

  /** A host is compliant exactly when the first user with its assigned
      username holds one of the roles the host lists. */
  lemma HostRule(d: Device, users: seq<User>)
    requires d.deviceType == Host && DeviceResult(users, d).Ok?
    ensures var owner := Get(AuthAndAC.AuthSection(d), "assigned_user", JStr("")).value;
      var roles := Iterate(Lookup(d.configuration, "roles", JList([]))).value;
      DeviceResult(users, d).value.compliant <==>
        exists m :: 0 <= m < |users| && users[m].username == owner
          && (forall j :: 0 <= j < m ==> users[j].username != owner)
          && exists k :: 0 <= k < |roles| && roles[k] in users[m].roles
  {
    var owner := Get(AuthAndAC.AuthSection(d), "assigned_user", JStr("")).value;
    var m := FirstUserNamed(users, owner, 0).value;
    var results := Permissions(d, users).value;
    assert results == [HostPermission(d, users).value];
    assert AllTrue(results) <==> results[0];
    forall m' | 0 <= m' < |users| && users[m'].username == owner && (forall j :: 0 <= j < m' ==> users[j].username != owner)
      ensures m' == m
    {
    }
  }

  /** A host that lists no roles is not compliant, whatever its user holds. */
  lemma HostWithoutRolesIsNotCompliant(d: Device, users: seq<User>)
    requires d.deviceType == Host && DeviceResult(users, d).Ok?
    requires Lookup(d.configuration, "roles", JList([])) == JList([])
    ensures !DeviceResult(users, d).value.compliant
  {
    assert Permissions(d, users).Ok?;
    assert HostPermission(d, users).Ok?;
    assert Iterate(Lookup(d.configuration, "roles", JList([]))) == Ok([]);
    assert !AnyRoleHeld([], users[FirstUserNamed(users, Get(AuthAndAC.AuthSection(d), "assigned_user", JStr("")).value, 0).value].roles);
    assert Permissions(d, users).value == [false];
    assert DeviceResult(users, d).value.compliant == AllTrue([false]);
    assert !AllTrue([false]) by { assert ![false][0]; }
  }

  /** A host whose assigned user is not among the users stops the run with
      StopIteration. */
  lemma UnknownUserRaises(d: Device, users: seq<User>)
    requires d.deviceType == Host
    requires Get(AuthAndAC.AuthSection(d), "assigned_user", JStr("")).Ok?
    requires forall j :: 0 <= j < |users| ==> users[j].username != Get(AuthAndAC.AuthSection(d), "assigned_user", JStr("")).value
    ensures DeviceResult(users, d) == Raise(StopIteration)
  {
    assert HostPermission(d, users) == Raise(StopIteration);
  }

  /** Any other device is compliant exactly when every name its ACL allows is
      the username of some user; roles play no part. */
  lemma AclRule(d: Device, users: seq<User>)
    requires d.deviceType != Host && DeviceResult(users, d).Ok?
    ensures var names := Iterate(AllowList(d).value).value;
      DeviceResult(users, d).value.compliant <==>
        forall k :: 0 <= k < |names| ==> KnownUser(users, names[k])
  {
    assert Permissions(d, users) == AclPermissions(d, users);
    assert DeviceResult(users, d).value.compliant == AllTrue(AclPermissions(d, users).value);
  }

  /** A device other than a host with an empty (or missing) allow list is
      compliant: `all([])` is True. */
  lemma EmptyAllowIsCompliant(d: Device, users: seq<User>)
    requires d.deviceType != Host
    requires AllowList(d) == Ok(JList([]))
    ensures DeviceResult(users, d).Ok? && DeviceResult(users, d).value.compliant
  {
  }

  /** Without an auth dict of its own the allow list raises AttributeError on a
      device other than a host whose "auth" value is not a dict. */
  lemma AuthNotDictRaises(d: Device, users: seq<User>)
    requires d.deviceType != Host
    requires !AuthAndAC.AuthSection(d).JObject?
    ensures DeviceResult(users, d) == Raise(AttributeError)
  {
  }

  /** A run of the least privilege check makes one "Least Privilege" call per
      device, in list order, until a device raises, or a hostname `add_result`
      cannot record, stops it. */
  lemma RunReportsEachDevice(check: LeastPrivilegeCheck)
    ensures var t := RunTrace(check.devices, Evaluator(check.users));
      && |t.calls| <= |check.devices|
      && (forall k :: 0 <= k < |t.calls| ==>
            t.calls[k].hostname == check.devices[k].hostname && t.calls[k].check == CheckName)
      && (t.raised.None? <==> |t.calls| == |check.devices|)
      && (t.raised.Some? ==>
            || Permissions(check.devices[|t.calls|], check.users).Raise?
            || (Permissions(check.devices[|t.calls|], check.users).Ok? && !Hashable(check.devices[|t.calls|].hostname) && t.raised.value == TypeError))
  {
    OneCallPerDevice(check.devices, Evaluator(check.users), CheckName);
  }
}
