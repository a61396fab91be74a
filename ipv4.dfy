/** The part of Python's `ipaddress` module the engine relies on: the strict
    `IPv4Network(value)` constructor (dotted-quad address, optional '/' followed by
    a prefix length or a dotted netmask or hostmask, no host bits set) and
    `subnet_of`, whose meaning is prefix containment as in section 3.1 of
    RFC 4632. */
module Ipv4 {
  import opened Wrappers
  import opened JsonValues

  /** The exceptions IPv4Network raises: AddressValueError for the address part,
      NetmaskValueError for the part after '/', a plain ValueError for host bits. */
  datatype IpError = AddressValueError | NetmaskValueError | HostBitsSet

  type PrefixLength = p: nat | p <= 32

  /** A network: its first address as a 32-bit number and its prefix length. */
  datatype Network = Network(address: nat, prefix: PrefixLength)

  datatype ParseResult = Parsed(net: Network) | Rejected(error: IpError)

  const AddressCount: nat := 4294967296

  function Pow2(k: nat): (r: nat)
    ensures r >= 1
  {
    if k == 0 then 1 else 2 * Pow2(k - 1)
  }

  lemma {:induction false} Pow2Monotonic(j: nat, k: nat)
    requires j <= k
    ensures Pow2(j) <= Pow2(k)
    ensures Pow2(k) % Pow2(j) == 0
    ensures Pow2(k) == Pow2(j) * Pow2(k - j)
  {
    Pow2Split(j, k);
    MulMonotone(1, Pow2(k - j), Pow2(j));
    ModOfMultiple(Pow2(k - j), Pow2(j));
  }

  /** 2^k = 2^j * 2^(k - j). */
  lemma {:induction false} Pow2Split(j: nat, k: nat)
    requires j <= k
    ensures Pow2(k) == Pow2(j) * Pow2(k - j)
    decreases k
  {
    if j < k {
      Pow2Split(j, k - 1);
      var a, b := Pow2(j), Pow2(k - 1 - j);
      assert Pow2(k - j) == 2 * b;
      assert a * (2 * b) == 2 * (a * b);
    }
  }

  lemma Pow2Of32()
    ensures Pow2(32) == AddressCount
  {
    assert Pow2(8) == 256;
    assert Pow2(16) == 65536 by { Pow2Monotonic(8, 16); }
    assert Pow2(32) == AddressCount by { Pow2Monotonic(16, 32); }
  }

  /** A network IPv4Network can hold: a 32-bit address with no bit set beyond
      the prefix. */
  predicate Valid(n: Network)
  {
    n.prefix <= 32 && n.address < AddressCount && n.address % Pow2(32 - n.prefix) == 0
  }

  /** The number of addresses in the network. */
  function Size(n: Network): nat
  {
    Pow2(32 - n.prefix)
  }

  /** The last address of the network (`broadcast_address`). */
  function Broadcast(n: Network): int
  {
    n.address + Size(n) - 1
  }

  /** `a.subnet_of(b)`: b's address range includes a's. */
  predicate SubnetOf(a: Network, b: Network)
  {
    b.address <= a.address && Broadcast(a) <= Broadcast(b)
  }

  // ---------------------------------------------------------------- text

  predicate IsDigit(c: char)
  {
    '0' <= c <= '9'
  }

  predicate AllDigits(s: string)
  {
    forall k :: 0 <= k < |s| ==> IsDigit(s[k])
  }

  /** Python `int(s)` of a string of ASCII digits. */
  function DigitsValue(s: string): nat
    requires AllDigits(s)
  {
    if |s| == 0 then 0
    else DigitsValue(s[..|s| - 1]) * 10 + ((s[|s| - 1] as int) - ('0' as int))
  }

  /** Python `s.split(sep)`: the pieces between separators, empty ones included. */
  function Split(s: string, sep: char): (parts: seq<string>)
    ensures |parts| >= 1
  {
    if |s| == 0 then [""]
    else
      var rest := Split(s[1..], sep);
      if s[0] == sep then [""] + rest else [[s[0]] + rest[0]] + rest[1..]
  }

  /** `IPv4Address._parse_octet`: 1 to 3 ASCII digits, no leading zero, at most 255. */
  function ParseOctet(s: string): (r: Option<nat>)
    ensures r.Some? ==> r.value < 256
  {
    if s == "" || !AllDigits(s) || |s| > 3 || (s != "0" && s[0] == '0') then None
    else if DigitsValue(s) > 255 then None
    else Some(DigitsValue(s))
  }

  /** Big-endian value of four octets. */
  function Combine(o0: nat, o1: nat, o2: nat, o3: nat): nat
  {
    ((o0 * 256 + o1) * 256 + o2) * 256 + o3
  }

  lemma CombineBound(o0: nat, o1: nat, o2: nat, o3: nat)
    requires o0 < 256 && o1 < 256 && o2 < 256 && o3 < 256
    ensures Combine(o0, o1, o2, o3) < AddressCount
  {
    var x := o0 * 256 + o1;
    assert x <= 255 * 256 + 255;
    var y := x * 256 + o2;
    assert y <= 65535 * 256 + 255;
    assert y * 256 + o3 <= 16777215 * 256 + 255;
  }

  /** `IPv4Address._ip_int_from_string`: four dot-separated octets. */
  function ParseAddress(s: string): (r: Option<nat>)
    ensures r.Some? ==> r.value < AddressCount
  {
    var parts := Split(s, '.');
    if s == "" || |parts| != 4 then None
    else
      match (ParseOctet(parts[0]), ParseOctet(parts[1]), ParseOctet(parts[2]), ParseOctet(parts[3]))
      case (Some(o0), Some(o1), Some(o2), Some(o3)) =>
        CombineBound(o0, o1, o2, o3);
        Some(Combine(o0, o1, o2, o3))
      case _ => None
  }

  function NetmaskOf(p: nat): int
    requires p <= 32
  {
    AddressCount - Pow2(32 - p)
  }

  function HostmaskOf(p: nat): int
    requires p <= 32
  {
    Pow2(32 - p) - 1
  }

  /** The least prefix length from `p` on whose netmask (or, when `hostmask`, whose
      hostmask) is `m`. */
  function FindPrefix(m: nat, p: nat, hostmask: bool): (r: Option<nat>)
    requires p <= 33
    ensures r.Some? ==> p <= r.value <= 32
    ensures r.Some? ==> m == if hostmask then HostmaskOf(r.value) else NetmaskOf(r.value)
    ensures r.None? ==> forall q :: p <= q <= 32 ==> m != if hostmask then HostmaskOf(q) else NetmaskOf(q)
    decreases 33 - p
  {
    if p == 33 then None
    else if m == (if hostmask then HostmaskOf(p) else NetmaskOf(p)) then Some(p)
    else FindPrefix(m, p + 1, hostmask)
  }

  /** `_prefix_from_ip_string`: a dotted mask is read as a netmask first (so all
      zeros and all ones are netmasks), and as a hostmask only when that fails. */
  function PrefixOfMask(m: nat): (r: Option<nat>)
    ensures r.Some? ==> r.value <= 32
  {
    match FindPrefix(m, 0, false)
    case Some(p) => Some(p)
    case None => FindPrefix(m, 0, true)
  }

  /** `_make_netmask` for the text after '/': a prefix length of ASCII digits up
      to 32 (leading zeros allowed), else a dotted netmask or hostmask. */
  function ParseMask(s: string): (r: Option<nat>)
    ensures r.Some? ==> r.value <= 32
  {
    if s != "" && AllDigits(s) && DigitsValue(s) <= 32 then Some(DigitsValue(s))
    else
      match ParseAddress(s)
      case None => None
      case Some(m) => PrefixOfMask(m)
  }

  /** The strict `IPv4Network(s)` constructor on a string. */
  function ParseNetwork(s: string): (r: ParseResult)
    ensures r.Parsed? ==> Valid(r.net)
    ensures r.Parsed? ==> ParseAddress(Split(s, '/')[0]) == Some(r.net.address)
    ensures (|Split(s, '/')| > 2 || ParseAddress(Split(s, '/')[0]).None?) <==> r == Rejected(AddressValueError)
  {
    var parts := Split(s, '/');
    if |parts| > 2 then Rejected(AddressValueError)
    else
      match ParseAddress(parts[0])
      case None => Rejected(AddressValueError)
      case Some(a) =>
        if |parts| == 1 then
          Pow2Of32();
          Parsed(Network(a, 32))
        else
          match ParseMask(parts[1])
          case None => Rejected(NetmaskValueError)
          case Some(p) => if a % Pow2(32 - p) != 0 then Rejected(HostBitsSet) else Parsed(Network(a, p))
  }

  /** `IPv4Network(v)` on a decoded value: an int (a bool is one) is a /32
      address; any other non-string is converted with `str()`, which never reads
      as an address. */
  function NetworkOf(v: Json): (r: ParseResult)
    ensures r.Parsed? ==> Valid(r.net)
    ensures !(v.JStr? || v.JInt? || v.JBool?) ==> r == Rejected(AddressValueError)
  {
    Pow2Of32();
    match v
    case JStr(s) => ParseNetwork(s)
    case JInt(i) => if 0 <= i < AddressCount then Parsed(Network(i, 32)) else Rejected(AddressValueError)
    case JBool(b) => Parsed(Network(if b then 1 else 0, 32))
    case _ => Rejected(AddressValueError)
  }

  // ---------------------------------------------------------------- containment

  /** Every network is a subnet of itself. */
  lemma SubnetOfReflexive(a: Network)
    ensures SubnetOf(a, a)
  {
  }

  lemma MulMonotone(x: int, z: int, d: int)
    requires d > 0 && x <= z
    ensures x * d <= z * d
  {
    assert z * d == (z - x) * d + x * d;
    assert (z - x) * d >= 0;
  }

  /** MulMonotone as an implication, usable without a case split by the caller. */
  lemma MulOrder(x: int, z: int, d: int)
    requires d > 0
    ensures x <= z ==> x * d <= z * d
  {
    if x <= z { MulMonotone(x, z, d); }
  }

  lemma MulStrict(x: int, z: int, d: int)
    requires d > 0 && x * d < z * d
    ensures x < z
  {
    MulOrder(z, x, d);
  }

  lemma DivBetween(x: int, q: int, d: int)
    requires d > 0 && q * d <= x < q * d + d
    ensures x / d == q
  {
    var k := x / d;
    assert x == k * d + x % d && 0 <= x % d < d;
    MulOrder(q + 1, k, d);
    assert (q + 1) * d == q * d + d;
    MulOrder(k + 1, q, d);
    assert (k + 1) * d == k * d + d;
  }

  lemma ModOfMultiple(q: nat, d: nat)
    requires d > 0
    ensures (d * q) % d == 0 && (d * q) / d == q
  {
    DivBetween(d * q, q, d);
  }

  /** A multiple of d is d times its quotient. */
  lemma MultipleOf(x: nat, d: nat)
    requires d > 0 && x % d == 0
    ensures x == d * (x / d)
  {
  }

  lemma Pow2Strict(j: nat, k: nat)
    ensures j < k ==> 2 * Pow2(j) <= Pow2(k)
  {
    if j < k {
      Pow2Monotonic(j + 1, k);
    }
  }

  /** An aligned block of A addresses that starts inside an aligned block of
      B = A * m addresses ends inside it too. */
  lemma AlignedBlockInside(x: int, A: int, m: int, y: int)
    requires A > 0 && m > 0
    requires y * (A * m) <= x * A < (y + 1) * (A * m)
    ensures x * A + A <= (y + 1) * (A * m)
  {
    assert (y + 1) * (A * m) == ((y + 1) * m) * A;
    MulStrict(x, (y + 1) * m, A);
    MulMonotone(x + 1, (y + 1) * m, A);
    assert (x + 1) * A == x * A + A;
  }

  /** The "only if" half of SubnetOfIsPrefixContainment. */
  lemma SubnetHasShorterPrefix(a: Network, b: Network)
    requires Valid(a) && Valid(b) && SubnetOf(a, b)
    ensures b.prefix <= a.prefix && a.address / Size(b) == b.address / Size(b)
  {
    var A, B := Size(a), Size(b);
    var y := b.address / B;
    assert A <= B;
    Pow2Strict(32 - b.prefix, 32 - a.prefix);
    MultipleOf(b.address, B);
    assert y * B <= a.address < y * B + B;
    DivBetween(a.address, y, B);
  }

  /** The "if" half of SubnetOfIsPrefixContainment. */
  lemma SharedPrefixIsSubnet(a: Network, b: Network)
    requires Valid(a) && Valid(b)
    requires b.prefix <= a.prefix && a.address / Size(b) == b.address / Size(b)
    ensures SubnetOf(a, b)
  {
    var A, B := Size(a), Size(b);
    var addr, base := a.address, b.address;
    var x, y := addr / A, base / B;
    MultipleOf(addr, A);
    MultipleOf(base, B);
    Pow2Monotonic(32 - a.prefix, 32 - b.prefix);
    var m := Pow2(a.prefix - b.prefix);
    assert B == A * m;
    DivMod(addr, B);
    BlockStep(addr, x, A, m, y, B);
  }

  lemma DivMod(x: int, d: int)
    requires d > 0
    ensures d * (x / d) <= x < d * (x / d) + d
  {
  }

  lemma BlockStep(addr: int, x: int, A: int, m: int, y: int, B: int)
    requires A > 0 && m > 0 && B == A * m
    requires addr == A * x && B * y <= addr < B * y + B
    ensures addr + A <= B * y + B
  {
    assert y * (A * m) <= x * A < (y + 1) * (A * m);
    AlignedBlockInside(x, A, m, y);
  }

  /** Prefix containment (section 3.1 of RFC 4632): a valid network lies in a
      valid network b exactly when b's prefix is no longer than a's and a's
      address agrees with b's on b's first prefix bits. */
  lemma SubnetOfIsPrefixContainment(a: Network, b: Network)
    requires Valid(a) && Valid(b)
    ensures SubnetOf(a, b) <==>
      b.prefix <= a.prefix && a.address / Size(b) == b.address / Size(b)
  {
    if SubnetOf(a, b) {
      SubnetHasShorterPrefix(a, b);
    }
    if b.prefix <= a.prefix && a.address / Size(b) == b.address / Size(b) {
      SharedPrefixIsSubnet(a, b);
    }
  }

  // ---------------------------------------------------------------- formatting

  lemma {:induction false} DigitsValueOfNatText(n: nat)
    ensures DigitsValue(NatText(n)) == n
  {
    var s := NatText(n);
    if n >= 10 {
      DigitsValueOfNatText(n / 10);
      assert s[..|s| - 1] == NatText(n / 10);
      assert n == (n / 10) * 10 + n % 10;
    }
  }

  lemma {:induction false} NatTextLength(n: nat)
    ensures n < 10 ==> |NatText(n)| == 1
    ensures n < 100 ==> |NatText(n)| <= 2
    ensures n < 1000 ==> |NatText(n)| <= 3
  {
    if n >= 10 { NatTextLength(n / 10); }
  }

  lemma ParseOctetOfNatText(v: nat)
    requires v < 256
    ensures ParseOctet(NatText(v)) == Some(v)
  {
    NatTextLength(v);
    DigitsValueOfNatText(v);
    if v == 0 { assert NatText(v) == "0"; }
  }

  /** `str(IPv4Address)`: the four octets in decimal, separated by dots. */
  function AddressText(a: nat): string
  {
    var q1 := a / 256;
    var q2 := q1 / 256;
    NatText(q2 / 256) + "." + NatText(q2 % 256) + "." + NatText(q1 % 256) + "." + NatText(a % 256)
  }

  /** `str(IPv4Network)`: address, '/', prefix length. */
  function Format(n: Network): string
  {
    AddressText(n.address) + "/" + NatText(n.prefix)
  }

  lemma {:induction false} SplitWithout(s: string, sep: char)
    requires sep !in s
    ensures Split(s, sep) == [s]
  {
    if |s| > 0 {
      SplitWithout(s[1..], sep);
      assert [s[0]] + s[1..] == s;
    }
  }

  lemma {:induction false} SplitAt(a: string, sep: char, b: string)
    requires sep !in a
    ensures Split(a + [sep] + b, sep) == [a] + Split(b, sep)
  {
    if |a| == 0 {
      assert a + [sep] + b == [sep] + b;
      assert ([sep] + b)[1..] == b;
    } else {
      SplitAt(a[1..], sep, b);
      assert (a + [sep] + b)[1..] == a[1..] + [sep] + b;
      assert [a[0]] + a[1..] == a;
    }
  }

  lemma NoSeparatorInDigits(n: nat, sep: char)
    requires !IsDigit(sep)
    ensures sep !in NatText(n)
  {
  }

  lemma ParseAddressText(a: nat)
    requires a < AddressCount
    ensures ParseAddress(AddressText(a)) == Some(a)
  {
    var q1 := a / 256;
    var q2 := q1 / 256;
    var o0, o1, o2, o3 := q2 / 256, q2 % 256, q1 % 256, a % 256;
    var t0, t1, t2, t3 := NatText(o0), NatText(o1), NatText(o2), NatText(o3);
    NoSeparatorInDigits(o0, '.');
    NoSeparatorInDigits(o1, '.');
    NoSeparatorInDigits(o2, '.');
    NoSeparatorInDigits(o3, '.');
    SplitFour(t0, t1, t2, t3);
    assert AddressText(a) == t0 + "." + t1 + "." + t2 + "." + t3;
    OctetsCombine(a);
    ParseOctetOfNatText(o0);
    ParseOctetOfNatText(o1);
    ParseOctetOfNatText(o2);
    ParseOctetOfNatText(o3);
  }

  lemma SplitFour(t0: string, t1: string, t2: string, t3: string)
    requires '.' !in t0 && '.' !in t1 && '.' !in t2 && '.' !in t3
    ensures Split(t0 + "." + t1 + "." + t2 + "." + t3, '.') == [t0, t1, t2, t3]
  {
    assert t0 + "." + t1 + "." + t2 + "." + t3 == t0 + ['.'] + (t1 + ['.'] + (t2 + ['.'] + t3));
    SplitAt(t0, '.', t1 + ['.'] + (t2 + ['.'] + t3));
    SplitAt(t1, '.', t2 + ['.'] + t3);
    SplitAt(t2, '.', t3);
    SplitWithout(t3, '.');
  }

  lemma OctetsCombine(a: nat)
    requires a < AddressCount
    ensures var q1 := a / 256; var q2 := q1 / 256;
      q2 / 256 < 256 && Combine(q2 / 256, q2 % 256, q1 % 256, a % 256) == a
  {
    var q1 := a / 256;
    var q2 := q1 / 256;
    var o0 := q2 / 256;
    assert a == q1 * 256 + a % 256;
    assert q1 == q2 * 256 + q1 % 256;
    assert q2 == o0 * 256 + q2 % 256;
    assert q1 < 16777216;
    assert q2 < 65536;
  }

  /** Formatting a valid network and parsing the text gives the network back. */
  lemma ParseFormat(n: Network)
    requires Valid(n)
    ensures ParseNetwork(Format(n)) == Parsed(n)
  {
    var t, p := AddressText(n.address), NatText(n.prefix);
    NoSlashInAddressText(n.address);
    NoSeparatorInDigits(n.prefix, '/');
    SplitAt(t, '/', p);
    SplitWithout(p, '/');
    assert Split(Format(n), '/') == [t, p];
    ParseAddressText(n.address);
    DigitsValueOfNatText(n.prefix);
    assert ParseMask(p) == Some(n.prefix);
    ParseNetworkOfParts(Format(n), t, p, n);
  }

  /** An address and a mask that both parse, with no host bits set, make a network. */
  lemma ParseNetworkOfParts(s: string, t: string, p: string, n: Network)
    requires Split(s, '/') == [t, p] && ParseAddress(t) == Some(n.address) && ParseMask(p) == Some(n.prefix)
    requires n.address % Pow2(32 - n.prefix) == 0
    ensures ParseNetwork(s) == Parsed(n)
  {
  }

  lemma NoSlashInAddressText(a: nat)
    ensures '/' !in AddressText(a)
  {
    var q1 := a / 256;
    var q2 := q1 / 256;
    NoSeparatorInDigits(q2 / 256, '/');
    NoSeparatorInDigits(q2 % 256, '/');
    NoSeparatorInDigits(q1 % 256, '/');
    NoSeparatorInDigits(a % 256, '/');
  }
}
