/** The validated entities of app/domain_models.py: `Device` and `User`. Each
    constructor is a chain of guards over the raw decoded record; the first guard
    that fails decides the exception, and a record that passes them all becomes an
    immutable entity whose accessors return the fields as given. */
module DomainModels {
  import opened Wrappers
  import opened JsonValues
  import opened Exceptions
  import opened Builtins
  import Ipv4

  /** DEVICE_TYPES. */
  const DeviceTypes: seq<string> := ["host", "server", "switch", "router", "firewall"]

  datatype DeviceType = Host | Server | Switch | Router | Firewall
  {
    /** The string the record carries for this type. */
    function Name(): (s: string)
      ensures s in DeviceTypes
    {
      match this
      case Host => "host"
      case Server => "server"
      case Switch => "switch"
      case Router => "router"
      case Firewall => "firewall"
    }
  }

  /** `device_type in DEVICE_TYPES`, and which type it names. */
  function DeviceTypeOf(v: Json): (r: Option<DeviceType>)
    ensures r.Some? <==> v.JStr? && v.s in DeviceTypes
    ensures r.Some? ==> v == JStr(r.value.Name())
  {
    match v
    case JStr(s) =>
      if s == "host" then Some(Host)
      else if s == "server" then Some(Server)
      else if s == "switch" then Some(Switch)
      else if s == "router" then Some(Router)
      else if s == "firewall" then Some(Firewall)
      else None
    case _ => None
  }

  /** A validated device. The configuration is the dict the record carried. */
  datatype Device = Device(hostname: Json, ipAddress: Json, deviceType: DeviceType,
                           configuration: seq<(string, Json)>)
  {
    /** The `device_type` property: the string the record carried. */
    function DeviceTypeValue(): Json { JStr(deviceType.Name()) }

    /** The `configuration` property: the dict itself. */
    function Configuration(): Json { JObject(configuration) }
  }

  /** A validated user. */
  datatype User = User(username: Json, devices: seq<Json>, roles: seq<Json>)

  /** `record.get(key)` on a record already known to be a dict. */
  function Field(raw: Json, key: string): Json
    requires raw.JObject?
  {
    Lookup(raw.fields, key, JNull)
  }

  const HostnameLimit: nat := 100
  const UsernameLimit: nat := 50

  /** The text InvalidConfigurationError is raised with. */
  const ConfigurationInvalid: Json := JStr("configuration is invalid.")

  /** A hostname the guard lets through: it has a length, at most 100. */
  predicate HostnameOk(v: Json)
  {
    Len(v).Ok? && Len(v).value <= HostnameLimit
  }

  /** The exception `Device(raw)` raises for its ip_address, when it raises one:
      only an AddressValueError is turned into InvalidIpAddressError. */
  function IpAddressException(v: Json): Option<Exception>
  {
    match Ipv4.NetworkOf(v)
    case Parsed(_) => None
    case Rejected(e) =>
      if e.AddressValueError? then Some(DeviceValueError(InvalidIpAddress, v))
      else if e.NetmaskValueError? then Some(NetmaskValueError)
      else Some(HostBitsValueError)
  }

  /** `Device.__init__`: device type, then hostname, then ip_address, then
      configuration. */
  function NewDevice(raw: Json): (r: Outcome<Device>)
    // Built exactly when the record passes all four guards.
    ensures r.Ok? <==>
      raw.JObject?
      && DeviceTypeOf(Field(raw, "device_type")).Some?
      && HostnameOk(Field(raw, "hostname"))
      && Ipv4.NetworkOf(Field(raw, "ip_address")).Parsed?
      && Field(raw, "configuration").JObject?
    // The accessors give back the record's fields.
    ensures r.Ok? ==>
      r.value.hostname == Field(raw, "hostname")
      && r.value.ipAddress == Field(raw, "ip_address")
      && r.value.DeviceTypeValue() == Field(raw, "device_type")
      && r.value.Configuration() == Field(raw, "configuration")
    // The first failing guard decides the exception.
    ensures !raw.JObject? ==> r == Raise(AttributeError)
    ensures raw.JObject? && DeviceTypeOf(Field(raw, "device_type")).None? ==>
      r == Raise(DeviceValueError(InvalidDeviceType, Field(raw, "device_type")))
    ensures raw.JObject? && DeviceTypeOf(Field(raw, "device_type")).Some? ==>
      (Len(Field(raw, "hostname")).Raise? ==> r == Raise(TypeError))
      && (Len(Field(raw, "hostname")).Ok? && Len(Field(raw, "hostname")).value > HostnameLimit ==>
            r == Raise(DeviceValueError(InvalidHostname, Field(raw, "hostname"))))
    ensures raw.JObject? && DeviceTypeOf(Field(raw, "device_type")).Some? && HostnameOk(Field(raw, "hostname")) ==>
      (IpAddressException(Field(raw, "ip_address")).Some? ==>
         r == Raise(IpAddressException(Field(raw, "ip_address")).value))
      && (IpAddressException(Field(raw, "ip_address")).None? && !Field(raw, "configuration").JObject? ==>
         r == Raise(DeviceValueError(InvalidConfiguration, ConfigurationInvalid)))
  {
    if !raw.JObject? then Raise(AttributeError)
    else
      var hostname, ipAddress := Field(raw, "hostname"), Field(raw, "ip_address");
      var deviceType, configuration := Field(raw, "device_type"), Field(raw, "configuration");
      match DeviceTypeOf(deviceType)
      case None => Raise(DeviceValueError(InvalidDeviceType, deviceType))
      case Some(t) =>
        var length :- Len(hostname);
        if length > HostnameLimit then Raise(DeviceValueError(InvalidHostname, hostname))
        else
          match Ipv4.NetworkOf(ipAddress)
          case Rejected(e) =>
            if e.AddressValueError? then Raise(DeviceValueError(InvalidIpAddress, ipAddress))
            else if e.NetmaskValueError? then Raise(NetmaskValueError)
            else Raise(HostBitsValueError)
          case Parsed(_) =>
            if !configuration.JObject? then Raise(DeviceValueError(InvalidConfiguration, ConfigurationInvalid))
            else Ok(Device(hostname, ipAddress, t, configuration.fields))
  }

  /** `Device.__str__`. */
  function DeviceText(d: Device): (s: string)
    ensures |s| > 17 + |Str(d.hostname)| && s[..17] == "Device(Hostname: " && s[|s| - 1] == ')'
    ensures s[17..17 + |Str(d.hostname)|] == Str(d.hostname)
  {
    "Device(Hostname: " + Str(d.hostname) + ", IP Address: " + Str(d.ipAddress)
      + ", Type: " + d.deviceType.Name() + ")"
  }

  /** `User.__init__`: username, then devices, then roles. */
  function NewUser(raw: Json): (r: Outcome<User>)
    ensures r.Ok? <==>
      raw.JObject?
      && Len(Field(raw, "username")).Ok? && Len(Field(raw, "username")).value <= UsernameLimit
      && Field(raw, "devices").JList? && Field(raw, "devices").items != []
      && Field(raw, "roles").JList? && Field(raw, "roles").items != []
    ensures r.Ok? ==>
      r.value.username == Field(raw, "username")
      && JList(r.value.devices) == Field(raw, "devices")
      && JList(r.value.roles) == Field(raw, "roles")
    ensures !raw.JObject? ==> r == Raise(AttributeError)
    ensures raw.JObject? && Len(Field(raw, "username")).Raise? ==> r == Raise(TypeError)
    ensures raw.JObject? && Len(Field(raw, "username")).Ok? && Len(Field(raw, "username")).value > UsernameLimit ==>
      r == Raise(UserValueError(InvalidUsername, Field(raw, "username")))
    // Past the username, a bad devices value raises InvalidUserDevicesError, and
    // a bad roles value raises InvalidUserRolesError carrying the devices value.
    ensures raw.JObject? && Len(Field(raw, "username")).Ok? && Len(Field(raw, "username")).value <= UsernameLimit ==>
      (Len(Field(raw, "devices")).Ok? && (Len(Field(raw, "devices")).value == 0 || !Field(raw, "devices").JList?) ==>
         r == Raise(UserValueError(InvalidUserDevices, Field(raw, "devices"))))
      && (Field(raw, "devices").JList? && Field(raw, "devices").items != [] && Len(Field(raw, "roles")).Ok?
          && (Len(Field(raw, "roles")).value == 0 || !Field(raw, "roles").JList?) ==>
         r == Raise(UserValueError(InvalidUserRoles, Field(raw, "devices"))))
    // A devices or roles value without a length (a missing key among them)
    // raises TypeError from `len`.
    ensures raw.JObject? && Len(Field(raw, "username")).Ok? && Len(Field(raw, "username")).value <= UsernameLimit ==>
      (Len(Field(raw, "devices")).Raise? ==> r == Raise(TypeError))
      && (Field(raw, "devices").JList? && Field(raw, "devices").items != [] && Len(Field(raw, "roles")).Raise? ==>
         r == Raise(TypeError))
  {
    if !raw.JObject? then Raise(AttributeError)
    else
      var username, devices, roles := Field(raw, "username"), Field(raw, "devices"), Field(raw, "roles");
      var nameLength :- Len(username);
      if nameLength > UsernameLimit then Raise(UserValueError(InvalidUsername, username))
      else
        var deviceCount :- Len(devices);
        if deviceCount == 0 || !devices.JList? then Raise(UserValueError(InvalidUserDevices, devices))
        else
          var roleCount :- Len(roles);
          if roleCount == 0 || !roles.JList? then Raise(UserValueError(InvalidUserRoles, devices))
          else Ok(User(username, devices.items, roles.items))
  }

  /** `User.__str__`. */
  function UserText(u: User): (s: string)
    ensures |s| > 15 + |Str(u.username)| && s[..15] == "User(Username: " && s[|s| - 1] == ')'
    ensures s[15..15 + |Str(u.username)|] == Str(u.username)
  {
    "User(Username: " + Str(u.username) + ", Roles: " + Str(JList(u.roles)) + ")"
  }

  // ---------------------------------------------------------------- properties

  /** A hostname of exactly 100 characters passes the hostname guard, one of 101
      is rejected with InvalidHostnameError. */
  lemma HostnameBoundary(raw: Json)
    requires raw.JObject? && DeviceTypeOf(Field(raw, "device_type")).Some?
    requires Field(raw, "hostname").JStr?
    ensures |Field(raw, "hostname").s| == 100 ==> !(NewDevice(raw).Raise? && NewDevice(raw).exc.DeviceValueError?
                                                    && NewDevice(raw).exc.deviceKind == InvalidHostname)
    ensures |Field(raw, "hostname").s| == 101 ==>
      NewDevice(raw) == Raise(DeviceValueError(InvalidHostname, Field(raw, "hostname")))
  {
    assert Len(Field(raw, "hostname")) == Ok(|Field(raw, "hostname").s|);
  }

  /** The only failure of the ip_address guard that becomes InvalidIpAddressError
      is an address-part AddressValueError; a bad netmask or host bits propagate
      as ipaddress raised them. */
  lemma OnlyAddressErrorsBecomeInvalidIp(raw: Json)
    requires NewDevice(raw).Raise? && NewDevice(raw).exc.DeviceValueError?
    requires NewDevice(raw).exc.deviceKind == InvalidIpAddress
    ensures raw.JObject? && Ipv4.NetworkOf(Field(raw, "ip_address")) == Ipv4.Rejected(Ipv4.AddressValueError)
    ensures NewDevice(raw).exc.deviceValue == Field(raw, "ip_address")
  {
    assert raw.JObject?;
    assert DeviceTypeOf(Field(raw, "device_type")).Some?;
    assert HostnameOk(Field(raw, "hostname"));
    var ip := Field(raw, "ip_address");
    assert NewDevice(raw) == Raise(IpAddressException(ip).value);
  }

  /** A validated user has at least one device and one role. */
  lemma UserListsNonEmpty(raw: Json)
    requires NewUser(raw).Ok?
    ensures |NewUser(raw).value.devices| >= 1 && |NewUser(raw).value.roles| >= 1
  {
  }
}
