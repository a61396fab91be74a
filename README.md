# ZTA Lightning compliance engine, modelled in Dafny

ZTA Lightning audits a small network against four Zero Trust checks. The
inputs are a list of decoded device records and a list of decoded user
records.

- The domain model validates each record into a `Device` or a `User`. The
  first guard that fails raises the exception of the `InvalidDeviceValueError`
  or `InvalidUserValueError` family.
- Four check modules evaluate every device. Each writes one
  `add_result(hostname, check, compliant, detail)` per device into an
  `AuditReporter`:
  - **Logging**: logging is enabled, it goes to the centralized server, and
    the levels the device type needs are logged.
  - **Auth and AC**: auth is enabled, it uses the centralized AAA server, and
    the device meets the access-control rule of its type.
  - **Network Segmentation**: a segment is either IPv4 subnet containment or
    VLAN membership.
  - **Least Privilege**: checks assigned-user roles for hosts and ACL
    usernames for the other device types.
- The reporter keeps a results sheet. There is one row per device, two
  columns per check, and later results overwrite earlier cells.

This project models these pieces:

- **Python values**: the decoded JSON values (`JsonValues`).
- **Python built-ins**: the built-ins the code relies on (`Builtins`):
  - `dict.get`, `in`, iteration, `len`, truthiness and `str()`;
  - each one raises a `TypeError` or `AttributeError` where Python does, rather
    than quietly answering `False`.
- **Networks**: the strict `IPv4Network` parser and `subnet_of` (`Ipv4`).
- **Exceptions**: the exception families (`Exceptions`).
- **Records**: the two copies of the domain model (`DomainModels` for
  `app/domain_models.py`, `DomainModel` for `app/domain_model.py`).
- **Service search**: the "first device offering AAA" search and the
  `next(...)` lookups (`Locators`).
- **Check runs**: the `for device in devices` loop common to every check
  (`CheckRuns`).
- **Check modules**: the four checks (`Logging`, `AuthAndAC`,
  `NetworkSegmentation`, `LeastPrivilege`).
- **Report sheet**: the reporter, as a class over its row counter, its two
  dicts and the written cells (`AuditReporting`).

### How the model is built

- Every loop in the source is a Dafny `method` with a `while` loop. It is proved
  equal to a specification function.
- The properties the source promises are proved as lemmas about those functions.
- Each check run returns a `Trace`. A trace lists the `add_result` calls in
  order, plus the exception that ended the run early, if any. That exception
  comes from a device's evaluation, or from `add_result` itself, which raises
  TypeError for a list or dict hostname before it records anything.
- `AuditReporter.AddResult` states the reporter's new state as a function of the
  old one.
- The reporter's class invariant says these things about the devices and checks
  seen so far, kept as ghost lists:
  - devices get rows 1, 2, 3, … in order of first appearance;
  - checks get columns 1, 4, 7, 10 in order of first appearance.

### Where the code and its design description differ

The model follows the code in each case.

- **Logging's centralized-server test** compares `log_server` with the located
  server even when no device offers "AAA". The located server is then `None`, so
  a device with no `log_server` passes the test (`None == None`). It is not
  false for every device.
- **The AAA server** defaults to `""` when no device offers "AAA". A device
  whose `aaa_server` is `""` then passes that test.
- **The host access-control rule** asks for a user named like the assigned user
  with *at most one* device. It does not check that the user is non-admin. Users
  always have at least one device, so this means exactly one.
- **Least privilege** reads the lower-case `"allow"` key of the ACL. It makes no
  role check at all for non-hosts.
- **The host rule of least privilege** takes the first user with the assigned
  name. A missing user raises `StopIteration`.
- **Lookups of referenced entities** raise rather than fail soft. This covers
  the assigned user in least privilege and the connected device in
  segmentation: both use `next(...)` with no default, so the run aborts.
- **A missing `logging` section** raises `AttributeError` (`None.get`). It does
  not count as non-compliant. The same holds for a missing `connected_to`, and
  for an `auth` value that is not a dict.

## Model

| member | source | states |
|---|---|---|
| Exceptions.DeviceMessage | app/exceptions.py:7-8 | the message is "Invalid device value: ", then `str(value)`, then "." |
| Exceptions.UserMessage | app/exceptions.py:38-39 | the message is "Invalid user info. value: ", then `str(value)`, then "." |
| Exceptions.Message | app/exceptions.py:4-39 | every subclass's message is its family's prefix, then `str(value)`, then "."; the subclass never enters it |
| Exceptions.SameValueSameMessage | app/exceptions.py:11-57 | within a family, two errors carrying the same value have the same message, whatever the subclass |
| Exceptions.FamiliesHaveDistinctMessages | app/exceptions.py:4-39 | no device-value message equals a user-value message |
| Builtins.Lookup | app/zta_checks/auth_and_ac.py:35 | `dict.get(key, default)` on a dict: the default when the key is absent, otherwise the value bound to the key |
| Builtins.Get | app/zta_checks/logging.py:33 | `.get` raises AttributeError exactly when the receiver is not a dict (None included); on a dict it gives the value of the key's first binding, and a missing key gives the default |
| Builtins.Contains | app/zta_checks/logging.py:73 | `x in c`: list membership on a list, substring search on a string, key membership on a dict (false for a hashable non-string key); TypeError exactly for non-containers, non-string needles in strings and unhashable keys in dicts |
| Builtins.Iterate | app/zta_checks/least_privilege.py:40 | `for x in v` raises TypeError exactly for values that are not lists, strings or dicts; a list yields its items, a string its one-character strings, a dict its keys, in order |
| Builtins.IteratedIsContained | app/zta_checks/network_segmentation.py:68-69 | every item a for-loop over a value yields is `in` that value |
| Builtins.Len | app/domain_models.py:34 | `len` raises TypeError exactly for unsized values; it gives the length of a string, list or dict |
| Builtins.AllContained | app/zta_checks/logging.py:51 | `all(x in c for x in xs)` is true iff every `in` answers true, raises only when some `in` raises, and answers whenever every `in` answers |
| Ipv4.FindPrefix | app/domain_models.py:39 | a dotted mask is read as the prefix whose netmask or hostmask it equals, and as none when no prefix has it |
| Ipv4.ParseNetwork | app/domain_models.py:39 | a parsed network has no host bits set and starts at the parsed address; AddressValueError exactly when there is more than one '/' or the address part is not a dotted quad |
| Ipv4.NetworkOf | app/zta_checks/network_segmentation.py:42 | a parsed value is a valid network; values other than strings, ints and bools are rejected as addresses |
| Ipv4.ParseFormat | app/zta_checks/network_segmentation.py:42 | parsing the "a.b.c.d/p" text of any valid network gives that network back |
| Ipv4.SubnetOfReflexive | app/zta_checks/network_segmentation.py:68-69 | every network is a subnet of itself |
| Ipv4.SubnetOfIsPrefixContainment | app/zta_checks/network_segmentation.py:45 | `a.subnet_of(b)` iff b's prefix is no longer than a's and both addresses agree on b's prefix bits |
| DomainModels.DeviceType.Name | app/domain_models.py:18 | every device type's name is in DEVICE_TYPES |
| DomainModels.DeviceTypeOf | app/domain_models.py:30-32 | a value is accepted as a device type iff it is one of the five DEVICE_TYPES strings, and the type keeps that string |
| DomainModels.NewDevice | app/domain_models.py:24-46 | a device is built iff the type, hostname length, address and configuration guards all pass; its accessors return the record's fields; otherwise the first failing guard decides the exception |
| DomainModels.DeviceText | app/domain_models.py:68-70 | `str(device)` is "Device(Hostname: " followed by the hostname's text … ")" |
| DomainModels.NewUser | app/domain_models.py:76-91 | a user is built iff the username is at most 50 long and devices and roles are non-empty lists; a bad roles value raises InvalidUserRolesError carrying the devices value; a devices or roles value without a length (a missing key) raises TypeError |
| DomainModels.UserText | app/domain_models.py:108-110 | `str(user)` is "User(Username: " followed by the username's text … ")" |
| DomainModels.HostnameBoundary | app/domain_models.py:34-35 | a 100-character hostname is accepted, a 101-character one raises InvalidHostnameError |
| DomainModels.OnlyAddressErrorsBecomeInvalidIp | app/domain_models.py:38-41 | InvalidIpAddressError is raised only for an AddressValueError, and carries the ip_address value |
| DomainModels.UserListsNonEmpty | app/domain_models.py:85-91 | every built user has at least one device and at least one role |
| DomainModel.NewDevice | app/domain_model.py:21-43 | the second copy of the device constructor behaves exactly like the first and yields a type from DEVICE_TYPES |
| DomainModel.DeviceText | app/domain_model.py:65-67 | the second copy's `str(device)` equals the first's |
| DomainModel.AcceptedTypes | app/domain_model.py:27-28 | a type outside DEVICE_TYPES raises InvalidDeviceTypeError carrying the value; a built device's type is one of the five names |
| Locators.ProvidesService | app/zta_checks/logging.py:73 | `"AAA" in services` raises TypeError exactly when services is not a list, string or dict; on a list it is membership, on a string a substring search, on a dict key membership |
| Locators.FirstYesFromMeaning | app/zta_checks/logging.py:72-74 | the search returns the first device offering the service after only non-offering ones, none iff no device offers it, and an exception iff it reached a device whose test raises |
| Locators.FirstYesIsFound | app/zta_checks/auth_and_ac.py:87-89 | a device offering the service, preceded only by devices that do not, is the one found |
| Locators.FirstProviderWins | app/zta_checks/logging.py:72-74 | the located server is the address of the first device whose services list "AAA" |
| Locators.NoProviderGivesDefault | app/zta_checks/auth_and_ac.py:87-90 | when no device lists the service the default is returned (None for logging, "" for AAA) |
| Locators.FirstUserNamed | app/zta_checks/auth_and_ac.py:58 | `next(u for u in users if u.username == name)` is the first user with that name; there is none iff no user has it |
| Locators.FirstDeviceNamed | app/zta_checks/network_segmentation.py:81 | the first device with the hostname; there is none iff no device has it |
| Locators.FindUser | app/zta_checks/least_privilege.py:32 | the loop finds the user `FirstUserNamed` names |
| Locators.FindDevice | app/zta_checks/network_segmentation.py:81 | the loop finds the device `FirstDeviceNamed` names |
| CheckRuns.OneCallPerDevice | app/zta_checks/logging.py:83-98 | a run makes one call per device, in list order, each naming its device and the check and each with a hashable hostname; it covers every device iff nothing raised, and stops at the device whose evaluation raised or whose unhashable hostname made `add_result` raise TypeError (app/audit_reporter.py:36) |
| CheckRuns.RunTraceDependsOnResults | app/zta_checks/auth_and_ac.py:99-114 | a run depends only on what each device's evaluation gives |
| Logging.LevelsByType | app/zta_checks/logging.py:61-65 | hosts need INFO and WARNING; routers, switches, firewalls and servers need INFO, WARNING, ERROR and FATAL; other strings need nothing |
| Logging.EvaluateLogging | app/zta_checks/logging.py:33-51 | AttributeError without a logging dict; TypeError exactly when log_events cannot be searched; otherwise the enabled value, log_server equal to the located server, and every required level logged |
| Logging.DeviceResult | app/zta_checks/logging.py:84-97 | the call names the device and "Logging", the device raises exactly when its evaluation raises, and the status and the detail text are those of its evaluated facts |
| Logging.LoggingServerIp | app/zta_checks/logging.py:72-74 | the loop returns the address of the first device offering "AAA", None if there is none |
| Logging.NewLoggingCheck | app/zta_checks/logging.py:24-25 | construction locates the log server once |
| Logging.RunLoggingChecks | app/zta_checks/logging.py:83-98 | the loop makes exactly the calls of the run over the device list |
| Logging.CompliantIff | app/zta_checks/logging.py:85-88 | compliant iff enabled is truthy, log_server equals the located server, and every required level is logged |
| Logging.DisabledIsNotCompliant | app/zta_checks/logging.py:85-88 | `enabled: false` makes the device non-compliant |
| Logging.MissingLevelIsNotCompliant | app/zta_checks/logging.py:50-51 | a non-host logging only INFO and WARNING, or a host logging only INFO, is not compliant |
| Logging.MissingSectionRaises | app/zta_checks/logging.py:33 | a device without a logging section raises AttributeError |
| Logging.OtherServerIsNotCompliant | app/zta_checks/logging.py:41 | a log_server other than the located server makes the device non-compliant |
| Logging.NoServerAnywhereStillCentralized | app/zta_checks/logging.py:41 | with no AAA device, a device without log_server passes the centralized test |
| Logging.RunReportsEachDevice | app/zta_checks/logging.py:83-98 | a run makes one "Logging" call per device in order, until a device's evaluation raises or its hostname is unhashable and `add_result` raises TypeError |
| AuthAndAC.IsAuthEnabled | app/zta_checks/auth_and_ac.py:35 | the value of auth's first `enabled` binding, false without an auth section or without enabled; raises exactly when auth is not a dict |
| AuthAndAC.HasCentralizedAaa | app/zta_checks/auth_and_ac.py:43 | true iff aaa_server equals the located AAA server; raises exactly when auth is not a dict |
| AuthAndAC.AdminOnlyFrom | app/zta_checks/auth_and_ac.py:79-81 | true iff every user referencing the device holds the admin role |
| AuthAndAC.EvaluateAuth | app/zta_checks/auth_and_ac.py:101-103 | an evaluation that succeeds had a dict auth section and an answered access-control rule |
| AuthAndAC.DeviceResult | app/zta_checks/auth_and_ac.py:101-114 | the call names the device and "Auth and AC", and the device raises exactly when its evaluation raises |
| AuthAndAC.AaaServerIp | app/zta_checks/auth_and_ac.py:85-90 | the loop returns the address of the first device offering "AAA", "" if there is none |
| AuthAndAC.NewAuthCheck | app/zta_checks/auth_and_ac.py:25-27 | construction locates the AAA server once, and fails iff that search raises |
| AuthAndAC.HasAccessControls | app/zta_checks/auth_and_ac.py:52-83 | the method's loops compute the access-control rule of the device's type |
| AuthAndAC.CheckDevice | app/zta_checks/auth_and_ac.py:100-103 | the three tests on one device, in source order |
| AuthAndAC.RunAuthAndACChecks | app/zta_checks/auth_and_ac.py:99-114 | the loop makes exactly the calls of the run over the device list |
| AuthAndAC.CompliantIff | app/zta_checks/auth_and_ac.py:101-104 | compliant iff enabled is truthy, aaa_server equals the located server, and the access-control rule holds |
| AuthAndAC.NoAuthSectionIsNotCompliant | app/zta_checks/auth_and_ac.py:35 | a device without an auth section is not compliant |
| AuthAndAC.HostRule | app/zta_checks/auth_and_ac.py:55-62 | a host passes iff the first user named like its assigned user exists and has at most one device |
| AuthAndAC.HostRuleIgnoresRoles | app/zta_checks/auth_and_ac.py:55-62 | the host rule looks only at usernames and device lists, never at roles |
| AuthAndAC.ServerWithoutAclFails | app/zta_checks/auth_and_ac.py:66-68 | a server without an ACL, or with an empty one, fails |
| AuthAndAC.ServerAclMeaning | app/zta_checks/auth_and_ac.py:71-75 | with a non-empty Allow list, a server passes iff every user referencing it is on that list |
| AuthAndAC.ServerEmptyAllow | app/zta_checks/auth_and_ac.py:71-75 | with an empty or missing Allow list, a server passes iff no user references it |
| AuthAndAC.NetworkDeviceRule | app/zta_checks/auth_and_ac.py:77-81 | a router, switch or firewall passes iff every user referencing it holds the admin role |
| AuthAndAC.RunReportsEachDevice | app/zta_checks/auth_and_ac.py:99-114 | a run makes one "Auth and AC" call per device in order; it stops early only at a device whose evaluation raises, or whose unhashable hostname makes `add_result` raise TypeError |
| NetworkSegmentation.CoveredFromIff | app/zta_checks/network_segmentation.py:43-48 | the loop over allowed entries finds one iff some entry parses as a network containing the segment |
| NetworkSegmentation.SegmentAllowed | app/zta_checks/network_segmentation.py:41-52 | the only exception `_is_segment_allowed` lets out is TypeError |
| NetworkSegmentation.SegmentResults | app/zta_checks/network_segmentation.py:65-69 | one answer per item, each the item's segment test; raises iff some item's test raises |
| NetworkSegmentation.MembershipResults | app/zta_checks/network_segmentation.py:85-87 | one answer per item, each plain membership in the compared list; raises iff some membership test raises |
| NetworkSegmentation.DeviceResult | app/zta_checks/network_segmentation.py:97-116 | the call names the device and "Network Segmentation", the device raises exactly when its segment results raise, the status is true iff every segment result is true, and the detail text reports that status |
| NetworkSegmentation.IsSegmentAllowed | app/zta_checks/network_segmentation.py:34-52 | the method, with its loop over allowed entries, computes the segment test |
| NetworkSegmentation.AppendSegmentResults | app/zta_checks/network_segmentation.py:65-69 | the append loop computes the per-item segment answers |
| NetworkSegmentation.AppendMembershipResults | app/zta_checks/network_segmentation.py:85-87 | the append loop computes the per-item membership answers |
| NetworkSegmentation.CheckNetworkDeviceSegments | app/zta_checks/network_segmentation.py:54-70 | switches test their VLANs and other network devices test their own allowed segments, against the allowed segments |
| NetworkSegmentation.CheckHostOrServerSegments | app/zta_checks/network_segmentation.py:72-88 | the connected device is looked up and each own segment tested for membership in its allowed segments |
| NetworkSegmentation.CheckSegments | app/zta_checks/network_segmentation.py:99-106 | the dispatch by device type |
| NetworkSegmentation.RunNetworkSegmentationChecks | app/zta_checks/network_segmentation.py:96-116 | the loop makes exactly the calls of the run over the device list |
| NetworkSegmentation.VlanIsMembership | app/zta_checks/network_segmentation.py:49-51 | a segment that is not an IP network is allowed iff it is in the allowed list |
| NetworkSegmentation.IpSegmentIsContainment | app/zta_checks/network_segmentation.py:41-48 | an IP segment is allowed iff some allowed entry parses as a network containing it; entries that do not parse are skipped |
| NetworkSegmentation.OwnEntryAllowed | app/zta_checks/network_segmentation.py:68-69 | every entry of a list is allowed by that list |
| NetworkSegmentation.RouterAndFirewallAlwaysCompliant | app/zta_checks/network_segmentation.py:67-69 | the self-comparison of routers and firewalls always passes |
| NetworkSegmentation.HostUsesMembership | app/zta_checks/network_segmentation.py:79-88 | a host or server segment passes iff it is literally listed by the connected device; containment is not used |
| NetworkSegmentation.MissingConnectedDeviceRaises | app/zta_checks/network_segmentation.py:80-81 | a host or server connected to an unknown device raises StopIteration |
| NetworkSegmentation.NoSegmentsIsCompliant | app/zta_checks/network_segmentation.py:108 | a device with nothing to test is compliant |
| NetworkSegmentation.RunReportsEachDevice | app/zta_checks/network_segmentation.py:96-116 | a run makes one "Network Segmentation" call per device in order; it stops early only at a device whose segment results raise, or whose unhashable hostname makes `add_result` raise TypeError |
| LeastPrivilege.Usernames | app/zta_checks/least_privilege.py:39 | the usernames of the users, in order |
| LeastPrivilege.AclPermissions | app/zta_checks/least_privilege.py:38-44 | one answer per allow-list entry, true iff the entry is a known username; raises iff auth or acl is not a dict or the list cannot be iterated |
| LeastPrivilege.DeviceResult | app/zta_checks/least_privilege.py:46-49 | the call names the device and "Least Privilege", the device raises exactly when its permissions raise, the status is true iff every per-user result is true, and the detail text reports that status |
| LeastPrivilege.AnyRole | app/zta_checks/least_privilege.py:33 | the loop decides whether some allowed role is held |
| LeastPrivilege.CheckHost | app/zta_checks/least_privilege.py:29-36 | the host branch computes the host permission |
| LeastPrivilege.CheckAcl | app/zta_checks/least_privilege.py:37-44 | the loop computes the per-entry ACL answers |
| LeastPrivilege.CheckPermissions | app/zta_checks/least_privilege.py:28-44 | the dispatch on hosts and the other device types |
| LeastPrivilege.RunLeastPrivilegeCheck | app/zta_checks/least_privilege.py:27-49 | the loop makes exactly the calls of the run over the device list |
| LeastPrivilege.HostRule | app/zta_checks/least_privilege.py:29-36 | a host is compliant iff the first user with the assigned name holds one of the host's allowed roles |
| LeastPrivilege.HostWithoutRolesIsNotCompliant | app/zta_checks/least_privilege.py:31-33 | a host with no allowed roles is not compliant |
| LeastPrivilege.UnknownUserRaises | app/zta_checks/least_privilege.py:32 | a host whose assigned user is unknown raises StopIteration |
| LeastPrivilege.AclRule | app/zta_checks/least_privilege.py:37-46 | a non-host is compliant iff every name on its allow list is a known username |
| LeastPrivilege.EmptyAllowIsCompliant | app/zta_checks/least_privilege.py:38-46 | a non-host with an empty allow list is compliant |
| LeastPrivilege.AuthNotDictRaises | app/zta_checks/least_privilege.py:38 | a non-host whose auth is not a dict raises AttributeError |
| LeastPrivilege.RunReportsEachDevice | app/zta_checks/least_privilege.py:27-49 | a run makes one "Least Privilege" call per device in order, until a device's evaluation raises or its hostname is unhashable and `add_result` raises TypeError |
| AuditReporting.Validate | app/audit_reporter.py:33-34 | add_result goes ahead iff the check is one of VALID_ZTA_CHECKS and the device is hashable; an unknown check raises the ValueError |
| AuditReporting.AssignRow | app/audit_reporter.py:36-41 | afterwards the device has a row and the columns are unchanged |
| AuditReporting.AssignColumns | app/audit_reporter.py:43-47 | afterwards the check has columns and the rows are unchanged |
| AuditReporting.Record | app/audit_reporter.py:30-52 | the status and detail sit in the device's row under the check's two columns; a known device keeps its row, a known check keeps its columns |
| AuditReporting.AuditReporter.constructor | app/audit_reporter.py:15-23 | the row counter starts at 1 with no devices, checks or cells |
| AuditReporting.AuditReporter.Enter | app/audit_reporter.py:25-28 | writes "Device" at (0, 0) and nothing else |
| AuditReporting.AuditReporter.AddResult | app/audit_reporter.py:30-52 | an invalid call raises and changes nothing; a valid one records the result and keeps the row and column invariant |
| AuditReporting.AuditReporter.Accept | app/audit_reporter.py:36-52 | the row step, the column step and the writes together record the result |
| AuditReporting.AuditReporter.PlaceRow | app/audit_reporter.py:36-39 | the row step on the reporter's fields |
| AuditReporting.AuditReporter.PlaceColumns | app/audit_reporter.py:43-47 | the column step on the reporter's fields |
| AuditReporting.AuditReporter.WriteCells | app/audit_reporter.py:51-52 | the two writes on the reporter's cells |
| AuditReporting.AssignRowTracks | app/audit_reporter.py:36-39 | the row step gives a new device the next row |
| AuditReporting.AssignColumnsTracks | app/audit_reporter.py:43-45 | the column step gives the k-th new check column 3k+1 |
| AuditReporting.RecordTracks | app/audit_reporter.py:30-52 | add_result keeps the row and column invariant |
| AuditReporting.NewDeviceGetsNextRow | app/audit_reporter.py:36-39 | a new device gets the current row and its hostname in column 0, and the counter moves on |
| AuditReporting.NewCheckGetsNextColumns | app/audit_reporter.py:43-47 | the k-th new check gets column 3k+1, with "<check> - Status" and "<check> - Details" headers in row 0 |
| AuditReporting.NewCheckHeaders | app/audit_reporter.py:43-47 | a new check with k checks before it gets column 3k+1 and its two headers |
| AuditReporting.SeenRow | app/audit_reporter.py:36-41 | device rows start at 1 and are bounded by the number of devices seen |
| AuditReporting.RepeatOverwritesOnlyItsCells | app/audit_reporter.py:49-52 | a repeated device and check overwrite exactly their two cells and nothing else |
| AuditReporting.RowsAreDistinct | app/audit_reporter.py:36-41 | distinct devices get distinct rows, rows run from 1 to the device count, and the count equals the number of devices seen |
| AuditReporting.StatusColumnsAreFormatted | app/audit_reporter.py:44-56 | every check's status column is one of B, E, H and K, the columns `__exit__` formats |

## Left out

- IPv6, as `ip_network` produces it in the segmentation check (app/zta_checks/network_segmentation.py:42-45), and `subnet_of` across versions. Two kinds of value give an IPv6 network:
  - IPv6 text;
  - an integer from 2^32 up to 2^128.
- Ipv4.NetworkOf: rejects those values as not an IP network.
  - As a segment, such a value is compared as a VLAN name.
  - As an allowed entry, it is skipped.
  - In Python, comparing an IPv6 network with an IPv4 one in `subnet_of` raises TypeError, which neither `except ValueError` catches, so the run stops.
  - The device constructor (app/domain_models.py:39) uses `IPv4Network`, which does reject such integers, so there the model agrees.
- Dicts with a repeated key. A decoded dict never has one, but a `JObject` value may: `Lookup` takes the first binding, while `Len` and `Iterate` count every binding.
- Python's `True == 1` and the order-insensitive equality of dicts. Values are compared structurally.
- The quoting and escaping that `repr` applies to strings. Inside a list or dict, `str()` here always puts a string in single quotes and never escapes it.
- Floating-point JSON numbers. Decoded values are null, booleans, integers, strings, lists and dicts.
- The workbook itself:
  - the date in the file name;
  - `xlsxwriter` and its conditional formats;
  - the summary message and closing the workbook in `__exit__`.
  The sheet is modelled as a map of cells, and `__exit__` only through the list of formatted columns.
- The CLI, the HTTP client and the orchestration that decodes the input files and opens the reporter. They are I/O around the core.
- The run methods: they return the sequence of `add_result` calls instead of calling the reporter.
- Locators.ProviderAddress: `Answers` evaluates every device's services. The proofs relate the search only to the answers before the first device that offers "AAA" or raises, as the loop reads them.
- DomainModels.NewDevice: a hostname may be any value whose `len` answers, as in Python. Only its length is checked.
- DomainModels.NewUser: the username may be any value whose `len` answers, as in Python.
- AuthAndAC.DeviceResult: the ensures does not restate the detail text. `Detail` defines it.
- NetworkSegmentation.SegmentAllowed: its own ensures bounds only the exceptions. `VlanIsMembership` and `IpSegmentIsContainment` state its value.
- AuthAndAC.EvaluateAuth: its own ensures states only what a successful evaluation implies. `CompliantIff` and the rule lemmas state the rest.
