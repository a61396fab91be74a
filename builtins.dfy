/** The Python built-ins the engine applies to decoded values: `dict.get`, `in`,
    `for`, `len` and `all` over a generator of membership tests. Each either yields
    a value or raises the exception Python raises; none of them defaults silently. */
module Builtins {
  import opened JsonValues
  import opened Exceptions

  predicate HasKey(fields: seq<(string, Json)>, key: string)
  {
    exists k :: 0 <= k < |fields| && fields[k].0 == key
  }

  /** The value bound to `key`, or `default` when there is none. */
  function Lookup(fields: seq<(string, Json)>, key: string, default: Json): (r: Json)
    ensures !HasKey(fields, key) ==> r == default
    ensures HasKey(fields, key) ==>
      exists k :: 0 <= k < |fields| && fields[k].0 == key && r == fields[k].1
                  && forall j :: 0 <= j < k ==> fields[j].0 != key
  {
    if |fields| == 0 then default
    else if fields[0].0 == key then fields[0].1
    else
      var r := Lookup(fields[1..], key, default);
      assert HasKey(fields, key) ==> HasKey(fields[1..], key) by {
        if HasKey(fields, key) {
          var k :| 0 <= k < |fields| && fields[k].0 == key;
          assert k != 0 && fields[1..][k - 1].0 == key;
        }
      }
      assert HasKey(fields[1..], key) ==> HasKey(fields, key) by {
        if HasKey(fields[1..], key) {
          var k :| 0 <= k < |fields| - 1 && fields[1..][k].0 == key;
          assert fields[k + 1].0 == key;
        }
      }
      if HasKey(fields, key) then
        var k :| 0 <= k < |fields| - 1 && fields[1..][k].0 == key && r == fields[1..][k].1
                 && forall j :: 0 <= j < k ==> fields[1..][j].0 != key;
        assert fields[k + 1].0 == key && r == fields[k + 1].1;
        assert forall j :: 0 <= j < k + 1 ==> fields[j].0 != key by {
          forall j | 0 <= j < k + 1 ensures fields[j].0 != key {
            if j > 0 { assert fields[j] == fields[1..][j - 1]; }
          }
        }
        r
      else r
  }

  /** `obj.get(key, default)`: only a dict has `.get`. */
  function Get(obj: Json, key: string, default: Json): (r: Outcome<Json>)
    ensures r.Raise? <==> !obj.JObject?
    ensures r.Raise? ==> r.exc == AttributeError
    ensures r.Ok? ==> r.value == Lookup(obj.fields, key, default)
    ensures r.Ok? && !HasKey(obj.fields, key) ==> r.value == default
  {
    if obj.JObject? then Ok(Lookup(obj.fields, key, default)) else Raise(AttributeError)
  }

  /** `t` occurs in `s` starting at position `i`. */
  predicate OccursAt(t: string, s: string, i: int)
  {
    0 <= i <= |s| - |t| && s[i..i + |t|] == t
  }

  /** `t` occurs in `s` at some position from `i` on, searched left to right. */
  predicate OccursFrom(t: string, s: string, i: nat)
    decreases |s| - i
  {
    i + |t| <= |s| && (OccursAt(t, s, i) || OccursFrom(t, s, i + 1))
  }

  /** Python `t in s` on two strings. */
  predicate IsSubstring(t: string, s: string)
  {
    OccursFrom(t, s, 0)
  }

  /** The search from `i` finds exactly the occurrences at `i` or later. */
  lemma {:induction false} OccursFromIff(t: string, s: string, i: nat)
    decreases |s| - i
    ensures OccursFrom(t, s, i) <==> exists k :: i <= k <= |s| && OccursAt(t, s, k)
  {
    if i + |t| <= |s| {
      OccursFromIff(t, s, i + 1);
      if OccursFrom(t, s, i + 1) {
        var k :| i + 1 <= k <= |s| && OccursAt(t, s, k);
        assert i <= k <= |s| && OccursAt(t, s, k);
      }
    }
  }

  /** `t in s` holds exactly when `t` occurs somewhere in `s`. */
  lemma SubstringIff(t: string, s: string)
    ensures IsSubstring(t, s) <==> exists k :: 0 <= k <= |s| && OccursAt(t, s, k)
  {
    OccursFromIff(t, s, 0);
  }

  /** A value Python can hash: lists and dicts cannot be dict keys. */
  predicate Hashable(j: Json)
  {
    !j.JList? && !j.JObject?
  }

  /** Python `needle in container`. */
  function Contains(container: Json, needle: Json): (r: Outcome<bool>)
    ensures r.Raise? ==> r.exc == TypeError
    ensures container.JList? ==> r == Ok(needle in container.items)
    ensures container.JStr? && needle.JStr? ==> r == Ok(IsSubstring(needle.s, container.s))
    ensures container.JObject? && Hashable(needle) ==>
      r == Ok(needle.JStr? && HasKey(container.fields, needle.s))
    ensures r.Raise? <==>
      match container
      case JList(_) => false
      case JStr(_) => !needle.JStr?
      case JObject(_) => !Hashable(needle)
      case _ => true
  {
    match container
    case JList(xs) => Ok(needle in xs)
    case JStr(s) => if needle.JStr? then Ok(IsSubstring(needle.s, s)) else Raise(TypeError)
    case JObject(fs) =>
      if !Hashable(needle) then Raise(TypeError) else Ok(needle.JStr? && HasKey(fs, needle.s))
    case _ => Raise(TypeError)
  }

  /** The values a Python `for` loop visits: list items, the characters of a
      string, the keys of a dict. */
  function Iterate(j: Json): (r: Outcome<seq<Json>>)
    ensures r.Raise? <==> !(j.JList? || j.JStr? || j.JObject?)
    ensures r.Raise? ==> r.exc == TypeError
    ensures j.JList? ==> r == Ok(j.items)
    ensures j.JStr? ==> r.Ok? && |r.value| == |j.s|
    ensures j.JStr? ==> forall k :: 0 <= k < |j.s| ==> r.value[k] == JStr([j.s[k]])
    ensures j.JObject? ==> r.Ok? && |r.value| == |j.fields|
    ensures j.JObject? ==> forall k :: 0 <= k < |j.fields| ==> r.value[k] == JStr(j.fields[k].0)
  {
    match j
    case JList(xs) => Ok(xs)
    case JStr(s) => Ok(seq(|s|, k requires 0 <= k < |s| => JStr([s[k]])))
    case JObject(fs) => Ok(seq(|fs|, k requires 0 <= k < |fs| => JStr(fs[k].0)))
    case _ => Raise(TypeError)
  }

  /** Every value a `for` loop visits is `in` the container it came from. */
  lemma IteratedIsContained(j: Json, x: Json)
    requires Iterate(j).Ok? && x in Iterate(j).value
    ensures Contains(j, x) == Ok(true)
  {
    var xs := Iterate(j).value;
    var k :| 0 <= k < |xs| && xs[k] == x;
    match j
    case JList(_) =>
    case JStr(s) =>
      assert x == JStr([s[k]]) && OccursAt([s[k]], s, k);
      SubstringIff([s[k]], s);
    case JObject(fs) =>
      assert x == JStr(fs[k].0);
  }

  /** Python `len()`. */
  function Len(j: Json): (r: Outcome<nat>)
    ensures r.Raise? <==> !(j.JList? || j.JStr? || j.JObject?)
    ensures r.Raise? ==> r.exc == TypeError
    ensures j.JStr? ==> r == Ok(|j.s|)
    ensures j.JList? ==> r == Ok(|j.items|)
    ensures j.JObject? ==> r == Ok(|j.fields|)
  {
    match j
    case JList(xs) => Ok(|xs|)
    case JStr(s) => Ok(|s|)
    case JObject(fs) => Ok(|fs|)
    case _ => Raise(TypeError)
  }

  /** `all(x in container for x in needles)`: the tests run in order and stop at
      the first false one; a test that raises ends the evaluation. */
  function AllContained(container: Json, needles: seq<Json>): (r: Outcome<bool>)
    ensures r.Ok? ==> (r.value <==> forall k :: 0 <= k < |needles| ==> Contains(container, needles[k]) == Ok(true))
    ensures r.Raise? ==> exists k :: 0 <= k < |needles| && Contains(container, needles[k]).Raise?
    ensures (forall k :: 0 <= k < |needles| ==> Contains(container, needles[k]).Ok?) ==> r.Ok?
  {
    if |needles| == 0 then Ok(true)
    else
      var c :- Contains(container, needles[0]);
      if !c then Ok(false)
      else
        var r := AllContained(container, needles[1..]);
        assert forall k :: 1 <= k < |needles| ==> needles[k] == needles[1..][k - 1];
        r
  }
}
