/** The older copy of the device entity, app/domain_model.py, which the
    top-level orchestration still imports. Its guard chain is written out here on
    its own and proved to behave exactly as the current one in DomainModels, so
    every property proved there holds for it. */
module DomainModel {
  import opened JsonValues
  import opened Exceptions
  import opened Builtins
  import Ipv4
  import DomainModels

  /** DEVICE_TYPES of the older file. */
  const DeviceTypes: seq<string> := ["host", "server", "switch", "router", "firewall"]

  /** `Device.__init__` of the older file. */
  function NewDevice(raw: Json): (r: Outcome<DomainModels.Device>)
    ensures r == DomainModels.NewDevice(raw)
    ensures r.Ok? ==> r.value.DeviceTypeValue().s in DeviceTypes
  {
    if !raw.JObject? then Raise(AttributeError)
    else
      var hostname := Lookup(raw.fields, "hostname", JNull);
      var ipAddress := Lookup(raw.fields, "ip_address", JNull);
      var deviceType := Lookup(raw.fields, "device_type", JNull);
      var configuration := Lookup(raw.fields, "configuration", JNull);
      if !(deviceType.JStr? && deviceType.s in DeviceTypes) then
        Raise(DeviceValueError(InvalidDeviceType, deviceType))
      else
        var length :- Len(hostname);
        if length > 100 then Raise(DeviceValueError(InvalidHostname, hostname))
        else
          match Ipv4.NetworkOf(ipAddress)
          case Rejected(e) =>
            if e.AddressValueError? then Raise(DeviceValueError(InvalidIpAddress, ipAddress))
            else if e.NetmaskValueError? then Raise(NetmaskValueError)
            else Raise(HostBitsValueError)
          case Parsed(_) =>
            if !configuration.JObject? then
              Raise(DeviceValueError(InvalidConfiguration, JStr("configuration is invalid.")))
            else
              Ok(DomainModels.Device(hostname, ipAddress, DomainModels.DeviceTypeOf(deviceType).value,
                                     configuration.fields))
  }

  /** `Device.__str__` of the older file, which reads the properties rather
      than the private fields: the same text. */
  function DeviceText(d: DomainModels.Device): (s: string)
    ensures s == DomainModels.DeviceText(d)
  {
    "Device(Hostname: " + Str(d.hostname) + ", IP Address: " + Str(d.ipAddress)
      + ", Type: " + d.DeviceTypeValue().s + ")"
  }

  /** The older file accepts exactly the five device types. */
  lemma AcceptedTypes(raw: Json)
    requires raw.JObject?
    ensures DomainModels.DeviceTypeOf(DomainModels.Field(raw, "device_type")).None? ==>
      NewDevice(raw) == Raise(DeviceValueError(InvalidDeviceType, DomainModels.Field(raw, "device_type")))
    ensures NewDevice(raw).Ok? ==>
      DomainModels.Field(raw, "device_type") in [JStr("host"), JStr("server"), JStr("switch"), JStr("router"), JStr("firewall")]
  {
  }
}
