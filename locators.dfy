/** The first-match searches the checks share: the first device that offers a
    service (`"AAA" in device.configuration.get("services", [])`), the first user
    with a given username and the first device with a given hostname (`next(...)`
    over a generator). Each is a specification function searching from an index,
    with a method that walks the list the way the checks' loops do. */
module Locators {
  import opened Wrappers
  import opened JsonValues
  import opened Exceptions
  import opened Builtins
  import opened DomainModels

  /** The services a device lists, `[]` when it lists none. */
  function Services(d: Device): Json
  {
    Lookup(d.configuration, "services", JList([]))
  }

  /** `tag in device.configuration.get("services", [])`. */
  function ProvidesService(d: Device, tag: string): (r: Outcome<bool>)
    // Only a services value that supports `in` for a string answers.
    ensures r.Raise? <==> !(Services(d).JList? || Services(d).JStr? || Services(d).JObject?)
    ensures r.Raise? ==> r.exc == TypeError
    ensures Services(d).JList? ==> r == Ok(JStr(tag) in Services(d).items)
    ensures Services(d).JStr? ==> r == Ok(IsSubstring(tag, Services(d).s))
    ensures Services(d).JObject? ==> r == Ok(HasKey(Services(d).fields, tag))
  {
    Contains(Services(d), JStr(tag))
  }

  /** The answers the generator would get, device by device. Only those up to
      the first True or the first exception are ever asked for, which is what
      FirstYesFrom reads. */
  function Answers(devices: seq<Device>, tag: string): (r: seq<Outcome<bool>>)
    ensures |r| == |devices| && forall j :: 0 <= j < |devices| ==> r[j] == ProvidesService(devices[j], tag)
  {
    seq(|devices|, j requires 0 <= j < |devices| => ProvidesService(devices[j], tag))
  }

  /** `next` over a filtering generator, from `i`: the index of the first True
      answer, `None` when every answer is False; an exception stops the search. */
  function FirstYesFrom(answers: seq<Outcome<bool>>, i: nat): (r: Outcome<Option<nat>>)
    requires i <= |answers|
    decreases |answers| - i
    ensures r.Ok? && r.value.Some? ==> i <= r.value.value < |answers|
  {
    if i == |answers| then Ok(None)
    else
      match answers[i]
      case Raise(e) => Raise(e)
      case Ok(found) => if found then Ok(Some(i)) else FirstYesFrom(answers, i + 1)
  }

  /** Answers `i` up to `k` are all False. */
  predicate AllNo(answers: seq<Outcome<bool>>, i: nat, k: nat)
    requires i <= k <= |answers|
  {
    forall j :: i <= j < k ==> answers[j] == Ok(false)
  }

  /** What the search finds: the first True after answers that are all False;
      `None` exactly when every answer is False; the exception of the first
      answer that is one. */
  lemma {:induction false} FirstYesFromMeaning(answers: seq<Outcome<bool>>, i: nat)
    requires i <= |answers|
    decreases |answers| - i
    ensures var r := FirstYesFrom(answers, i);
      && (r.Ok? && r.value.Some? ==> answers[r.value.value] == Ok(true) && AllNo(answers, i, r.value.value))
      && (r == Ok(None) <==> AllNo(answers, i, |answers|))
      && (r.Raise? ==> exists k :: i <= k < |answers| && answers[k] == Raise(r.exc) && AllNo(answers, i, k))
  {
    if i < |answers| {
      FirstYesFromMeaning(answers, i + 1);
      var r := FirstYesFrom(answers, i);
      if answers[i] == Ok(false) {
        assert r == FirstYesFrom(answers, i + 1);
        if r.Raise? {
          var k :| i + 1 <= k < |answers| && answers[k] == Raise(r.exc) && AllNo(answers, i + 1, k);
          assert AllNo(answers, i, k);
        }
      } else {
        assert !AllNo(answers, i, |answers|);
        if r.Raise? {
          assert answers[i] == Raise(r.exc) && AllNo(answers, i, i);
        }
      }
    }
  }

  /** A search from `i` that passes only False answers stops at the first True. */
  lemma {:induction false} FirstYesIsFound(answers: seq<Outcome<bool>>, i: nat, k: nat)
    requires i <= k < |answers| && answers[k] == Ok(true) && AllNo(answers, i, k)
    decreases k - i
    ensures FirstYesFrom(answers, i) == Ok(Some(k))
  {
    if i < k {
      FirstYesIsFound(answers, i + 1, k);
    }
  }

  /** The address of the first device offering `tag`, or `none` when no device
      offers it. */
  function ProviderAddress(devices: seq<Device>, tag: string, none: Json): (r: Outcome<Json>)
  {
    var answers := Answers(devices, tag);
    match FirstYesFrom(answers, 0)
    case Raise(e) => Raise(e)
    case Ok(found) => if found.Some? then Ok(devices[found.value].ipAddress) else Ok(none)
  }

  /** `next((user for user in users if user.username == name), None)`, from `i`. */
  function FirstUserNamed(users: seq<User>, name: Json, i: nat): (r: Option<nat>)
    requires i <= |users|
    decreases |users| - i
    ensures r.Some? ==>
      i <= r.value < |users| && users[r.value].username == name
      && forall j :: i <= j < r.value ==> users[j].username != name
    ensures r.None? <==> forall j :: i <= j < |users| ==> users[j].username != name
  {
    if i == |users| then None
    else if users[i].username == name then Some(i)
    else FirstUserNamed(users, name, i + 1)
  }

  /** `next(device for device in devices if device.hostname == name)`, from `i`;
      `None` where Python raises StopIteration. */
  function FirstDeviceNamed(devices: seq<Device>, name: Json, i: nat): (r: Option<nat>)
    requires i <= |devices|
    decreases |devices| - i
    ensures r.Some? ==>
      i <= r.value < |devices| && devices[r.value].hostname == name
      && forall j :: i <= j < r.value ==> devices[j].hostname != name
    ensures r.None? <==> forall j :: i <= j < |devices| ==> devices[j].hostname != name
  {
    if i == |devices| then None
    else if devices[i].hostname == name then Some(i)
    else FirstDeviceNamed(devices, name, i + 1)
  }

  /** Walks the users until one has the name. */
  method FindUser(users: seq<User>, name: Json) returns (r: Option<nat>)
    ensures r == FirstUserNamed(users, name, 0)
  {
    var i := 0;
    while i < |users|
      invariant 0 <= i <= |users|
      invariant FirstUserNamed(users, name, i) == FirstUserNamed(users, name, 0)
    {
      if users[i].username == name {
        return Some(i);
      }
      i := i + 1;
    }
    return None;
  }

  /** Walks the devices until one has the hostname. */
  method FindDevice(devices: seq<Device>, name: Json) returns (r: Option<nat>)
    ensures r == FirstDeviceNamed(devices, name, 0)
  {
    var i := 0;
    while i < |devices|
      invariant 0 <= i <= |devices|
      invariant FirstDeviceNamed(devices, name, i) == FirstDeviceNamed(devices, name, 0)
    {
      if devices[i].hostname == name {
        return Some(i);
      }
      i := i + 1;
    }
    return None;
  }

  /** A device earlier in the list that offers the service wins over any later
      one: the address found depends only on the first provider. */
  lemma FirstProviderWins(devices: seq<Device>, tag: string, none: Json, k: nat)
    requires k < |devices| && ProvidesService(devices[k], tag) == Ok(true)
    requires forall j :: 0 <= j < k ==> ProvidesService(devices[j], tag) == Ok(false)
    ensures ProviderAddress(devices, tag, none) == Ok(devices[k].ipAddress)
  {
    var answers := Answers(devices, tag);
    assert AllNo(answers, 0, k);
    FirstYesIsFound(answers, 0, k);
  }

  /** With no device listing the service, the default comes back. */
  lemma NoProviderGivesDefault(devices: seq<Device>, tag: string, none: Json)
    requires forall j :: 0 <= j < |devices| ==> Services(devices[j]).JList? && JStr(tag) !in Services(devices[j]).items
    ensures ProviderAddress(devices, tag, none) == Ok(none)
  {
    var answers := Answers(devices, tag);
    FirstYesFromMeaning(answers, 0);
    assert AllNo(answers, 0, |devices|);
  }
}
