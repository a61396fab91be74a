/** The exceptions the engine can raise: the two application families of
    app/exceptions.py, and the Python built-in errors its code runs into. */
module Exceptions {
  import opened JsonValues

  /** Subclasses of InvalidDeviceValueError. */
  datatype DeviceErrorKind = InvalidDeviceType | InvalidHostname | InvalidIpAddress | InvalidConfiguration

  /** Subclasses of InvalidUserValueError. */
  datatype UserErrorKind = InvalidUsername | InvalidUserDevices | InvalidUserRoles

  datatype Exception =
    /** An InvalidDeviceValueError subclass, carrying the argument it was raised with. */
    | DeviceValueError(deviceKind: DeviceErrorKind, deviceValue: Json)
    /** An InvalidUserValueError subclass, carrying the argument it was raised with. */
    | UserValueError(userKind: UserErrorKind, userValue: Json)
    /** `len`, `in` or `for` applied to a value that does not support it. */
    | TypeError
    /** `.get` called on a value that is not a dict. */
    | AttributeError
    /** `next(...)` without a default over an empty generator. */
    | StopIteration
    /** ipaddress.NetmaskValueError: the part after '/' is not a valid netmask. */
    | NetmaskValueError
    /** ValueError from a strict IPv4Network whose address has host bits set. */
    | HostBitsValueError
    /** ValueError from AuditReporter.add_result for an unknown check name. */
    | InvalidZtaCheckError(check: string)
  {
    predicate IsInvalidDeviceValue() { DeviceValueError? }
    predicate IsInvalidUserValue() { UserValueError? }
  }

  /** A Python evaluation: a value, or the exception it raised. */
  datatype Outcome<+T> = Ok(value: T) | Raise(exc: Exception)
  {
    predicate IsFailure() { Raise? }

    function PropagateFailure<U>(): Outcome<U>
      requires Raise?
    {
      Raise(exc)
    }

    function Extract(): T
      requires Ok?
    {
      value
    }
  }

  const DevicePrefix: string := "Invalid device value: "
  const UserPrefix: string := "Invalid user info. value: "

  /** The message InvalidDeviceValueError.__init__ passes to Exception. */
  function DeviceMessage(value: Json): (m: string)
    ensures |m| > |DevicePrefix| && m[..|DevicePrefix|] == DevicePrefix && m[|m| - 1] == '.'
    ensures m[|DevicePrefix|..|m| - 1] == Str(value)
  {
    DevicePrefix + Str(value) + "."
  }

  /** The message InvalidUserValueError.__init__ passes to Exception. */
  function UserMessage(value: Json): (m: string)
    ensures |m| > |UserPrefix| && m[..|UserPrefix|] == UserPrefix && m[|m| - 1] == '.'
    ensures m[|UserPrefix|..|m| - 1] == Str(value)
  {
    UserPrefix + Str(value) + "."
  }

  /** `str(e)` of an application exception; subclasses only inherit their family's
      constructor, so the kind never enters the message. */
  function Message(e: Exception): (m: string)
    requires e.DeviceValueError? || e.UserValueError?
    ensures e.DeviceValueError? ==>
      |m| > |DevicePrefix| && m[..|DevicePrefix|] == DevicePrefix && m[|DevicePrefix|..|m| - 1] == Str(e.deviceValue)
    ensures e.UserValueError? ==>
      |m| > |UserPrefix| && m[..|UserPrefix|] == UserPrefix && m[|UserPrefix|..|m| - 1] == Str(e.userValue)
    ensures m[|m| - 1] == '.'
  {
    if e.DeviceValueError? then DeviceMessage(e.deviceValue) else UserMessage(e.userValue)
  }

  /** Within a family, the message depends on the offending value alone. */
  lemma SameValueSameMessage(e1: Exception, e2: Exception)
    requires (e1.DeviceValueError? && e2.DeviceValueError? && e1.deviceValue == e2.deviceValue)
          || (e1.UserValueError? && e2.UserValueError? && e1.userValue == e2.userValue)
    ensures Message(e1) == Message(e2)
  {
  }

  /** A device-side message is never a user-side message: the prefixes differ at
      position 8 ("device" against "user"). */
  lemma FamiliesHaveDistinctMessages(v: Json, w: Json)
    ensures DeviceMessage(v) != UserMessage(w)
  {
    var d, u := DeviceMessage(v), UserMessage(w);
    assert d[8] == DevicePrefix[8] == 'd';
    assert u[8] == UserPrefix[8] == 'u';
  }
}
