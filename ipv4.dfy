/**
  IPv4 address blocks in prefix notation (section 3.1 of RFC 4632), as the
  target resolver expands them with `ipaddress.ip_network(target, strict=False)`
  followed by `.hosts()`, and the dotted-decimal text `str(ip)` of each address.
 */
module Ipv4 {
  import opened Common
  import opened Text

  const AddressSpace: nat := 0x1_0000_0000

  type Address = a: nat | a < 0x1_0000_0000

  type PrefixLength = p: nat | p <= 32

  /**
    An IPv4 network as `ip_network(spec, strict=False)` accepts it: the address
    as written (its host bits may be set) and the prefix length.
   */
  datatype Block = Block(address: Address, prefix: PrefixLength)

  function Pow2(k: nat): (r: nat)
    ensures r >= 1
  {
    if k == 0 then 1 else 2 * Pow2(k - 1)
  }

  lemma {:induction false} Pow2Add(a: nat, b: nat)
    ensures Pow2(a + b) == Pow2(a) * Pow2(b)
  {
    if a > 0 {
      Pow2Add(a - 1, b);
      assert Pow2(a + b) == 2 * Pow2(a - 1 + b);
    }
  }

  lemma Pow2Of32()
    ensures Pow2(32) == AddressSpace
  {
    assert Pow2(8) == 256;
    Pow2Add(8, 8);
    Pow2Add(16, 16);
  }

  /** The number of addresses in the block: 2 to the power of the host bits. */
  function BlockSize(b: Block): nat
  {
    Pow2(32 - b.prefix)
  }

  /** `a` with its `k` lowest bits cleared. */
  function ClearLow(a: nat, k: nat): nat
  {
    if k == 0 then a else 2 * ClearLow(a / 2, k - 1)
  }

  lemma {:induction false} ClearLowBounds(a: nat, k: nat)
    ensures ClearLow(a, k) <= a < ClearLow(a, k) + Pow2(k)
  {
    if k > 0 {
      ClearLowBounds(a / 2, k - 1);
    }
  }

  lemma {:induction false} ClearLowFits(a: nat, k: nat, n: nat)
    requires k <= n && a < Pow2(n)
    ensures ClearLow(a, k) + Pow2(k) <= Pow2(n)
  {
    if k > 0 {
      ClearLowFits(a / 2, k - 1, n - 1);
    }
  }

  lemma {:induction false} ClearLowTwice(a: nat, k: nat)
    ensures ClearLow(ClearLow(a, k), k) == ClearLow(a, k)
  {
    if k > 0 {
      ClearLowTwice(a / 2, k - 1);
      assert ClearLow(a, k) / 2 == ClearLow(a / 2, k - 1);
    }
  }

  /** The block's first address: the given address with its host bits cleared. */
  function NetworkAddress(b: Block): (n: Address)
    ensures n <= b.address
  {
    ClearLowBounds(b.address, 32 - b.prefix);
    ClearLow(b.address, 32 - b.prefix)
  }

  /** The block's last address: every host bit set. */
  function BroadcastAddress(b: Block): nat
  {
    NetworkAddress(b) + BlockSize(b) - 1
  }

  /** The block lies inside the IPv4 address space and contains its address. */
  lemma BlockBounds(b: Block)
    ensures NetworkAddress(b) <= b.address <= BroadcastAddress(b) < AddressSpace
  {
    ClearLowBounds(b.address, 32 - b.prefix);
    Pow2Of32();
    ClearLowFits(b.address, 32 - b.prefix, 32);
  }

  /** The consecutive addresses `lo`, `lo + 1`, ..., `hi - 1`. */
  function Range(lo: nat, hi: nat): (r: seq<Address>)
    requires hi <= AddressSpace
    ensures |r| == if lo <= hi then hi - lo else 0
    ensures forall i :: 0 <= i < |r| ==> r[i] == lo + i
    decreases hi - lo
  {
    if lo >= hi then [] else [lo as Address] + Range(lo + 1, hi)
  }

  /**
    `network.hosts()`: for a prefix of at most 30 bits every address strictly
    between the network and broadcast addresses; for /31 (RFC 3021) both
    addresses; for /32 the single address.
   */
  function HostAddrs(b: Block): seq<Address>
  {
    BlockBounds(b);
    var net := NetworkAddress(b);
    if b.prefix == 32 then [net as Address]
    else if b.prefix == 31 then [net as Address, (net + 1) as Address]
    else Range(net + 1, BroadcastAddress(b))
  }

  /** The hosts come out in ascending address order, with no repetition. */
  lemma HostsAscending(b: Block)
    ensures forall i, j :: 0 <= i < j < |HostAddrs(b)| ==> HostAddrs(b)[i] < HostAddrs(b)[j]
  {
    BlockBounds(b);
  }

  /** Every host of every block, whatever its prefix, lies inside the block. */
  lemma HostsInsideBlock(b: Block)
    ensures forall x :: x in HostAddrs(b) ==> NetworkAddress(b) <= x <= BroadcastAddress(b)
  {
    BlockBounds(b);
  }

  /**
    For a prefix of at most 30 bits the hosts are exactly the addresses strictly
    between network and broadcast: there are two fewer of them than the block holds.
   */
  lemma {:induction false} UsableHosts(b: Block)
    requires b.prefix <= 30
    ensures |HostAddrs(b)| == BlockSize(b) - 2
    ensures forall x: nat :: x in HostAddrs(b) <==> NetworkAddress(b) < x < BroadcastAddress(b)
  {
    BlockBounds(b);
    Pow2Add(2, 30 - b.prefix);
    assert Pow2(2) == 4;
    var r := HostAddrs(b);
    var net := NetworkAddress(b);
    forall x: nat | net < x < BroadcastAddress(b)
      ensures x in r
    {
      assert r[x - net - 1] == x;
    }
  }

  /** A /30 block has exactly two usable hosts: network + 1 and network + 2. */
  lemma Slash30(b: Block)
    requires b.prefix == 30
    ensures HostAddrs(b) == [NetworkAddress(b) + 1, NetworkAddress(b) + 2]
  {
    UsableHosts(b);
    assert BlockSize(b) == 4;
  }

  /** `strict=False`: the host bits of the written address change nothing. */
  lemma HostBitsIgnored(b: Block)
    ensures HostAddrs(Block(NetworkAddress(b), b.prefix)) == HostAddrs(b)
  {
    var c := Block(NetworkAddress(b), b.prefix);
    ClearLowTwice(b.address, 32 - b.prefix);
    assert NetworkAddress(c) == NetworkAddress(b);
    assert BroadcastAddress(c) == BroadcastAddress(b);
  }

  /** `str(ip)`: four decimal octets, most significant first, joined by dots. */
  function Dotted(a: Address): string
  {
    var o := Octets(a);
    NatStr(o[0]) + "." + NatStr(o[1]) + "." + NatStr(o[2]) + "." + NatStr(o[3])
  }

  /** `s.split('.')`. */
  function SplitDots(s: string): (parts: seq<string>)
    ensures |parts| >= 1
  {
    if s == [] then [""]
    else
      var rest := SplitDots(s[1..]);
      if s[0] == '.' then [""] + rest else [[s[0]] + rest[0]] + rest[1..]
  }

  lemma {:induction false} SplitDotsAfter(x: string, y: string)
    requires '.' !in x
    ensures SplitDots(x + "." + y) == [x] + SplitDots(y)
  {
    if x != [] {
      SplitDotsAfter(x[1..], y);
      assert (x + "." + y)[1..] == x[1..] + "." + y;
      assert [x[0]] + x[1..] == x;
    } else {
      assert x + "." + y == "." + y;
    }
  }

  /**
    One octet as the `ipaddress` module reads it: one to three decimal digits,
    no leading zero, at most 255.
   */
  function ParseOctet(p: string): (r: Option<nat>)
    ensures r.Some? ==> r.value < 256
  {
    if 1 <= |p| <= 3 && AllDigits(p) && !(|p| > 1 && p[0] == '0') && DecimalValue(p) < 256
    then Some(DecimalValue(p))
    else None
  }

  /** Reading a dotted-decimal address back, as `IPv4Address(s)` does. */
  function ParseDotted(s: string): Option<Address>
  {
    var parts := SplitDots(s);
    if |parts| != 4 then None
    else
      match (ParseOctet(parts[0]), ParseOctet(parts[1]), ParseOctet(parts[2]), ParseOctet(parts[3]))
      case (Some(o0), Some(o1), Some(o2), Some(o3)) =>
        Some((o0 * 0x100_0000 + o1 * 0x1_0000 + o2 * 0x100 + o3) as Address)
      case _ => None
  }

  lemma OctetRoundTrip(n: nat)
    requires n < 256
    ensures ParseOctet(NatStr(n)) == Some(n)
  {
    DecimalRoundTrip(n);
    if n >= 10 {
      assert NatStr(n) == NatStr(n / 10) + [DigitChar(n % 10)];
      if n >= 100 {
        assert NatStr(n / 10) == NatStr(n / 100) + [DigitChar(n / 10 % 10)];
      }
    }
  }

  lemma {:induction false} SplitNoDot(s: string)
    requires '.' !in s
    ensures SplitDots(s) == [s]
  {
    if s != [] {
      assert '.' !in s[1..];
      SplitNoDot(s[1..]);
      assert [s[0]] + s[1..] == s;
    }
  }

  /** The four octets of an address, most significant first. */
  function Octets(a: Address): (o: seq<nat>)
    ensures |o| == 4 && forall i :: 0 <= i < 4 ==> o[i] < 256
    ensures o[0] * 0x100_0000 + o[1] * 0x1_0000 + o[2] * 0x100 + o[3] == a
  {
    var r3 := a / 256;
    var r2 := r3 / 256;
    [r2 / 256, r2 % 256, r3 % 256, a % 256]
  }

  /** Four dot-free parts joined by dots split back into those parts. */
  lemma SplitFour(s0: string, s1: string, s2: string, s3: string)
    requires '.' !in s0 && '.' !in s1 && '.' !in s2 && '.' !in s3
    ensures SplitDots(s0 + "." + s1 + "." + s2 + "." + s3) == [s0, s1, s2, s3]
  {
    var t3 := s2 + "." + s3;
    var t2 := s1 + "." + t3;
    SplitNoDot(s3);
    SplitDotsAfter(s2, s3);
    SplitDotsAfter(s1, t3);
    SplitDotsAfter(s0, t2);
    JoinAssoc(s0 + "." + s1, s2, s3);
    JoinAssoc(s0, s1, t3);
  }

  lemma JoinAssoc(x: string, y: string, z: string)
    ensures x + "." + y + "." + z == x + "." + (y + "." + z)
  {
  }

  lemma DottedParts(a: Address)
    ensures var o := Octets(a);
      SplitDots(Dotted(a)) == [NatStr(o[0]), NatStr(o[1]), NatStr(o[2]), NatStr(o[3])]
  {
    var o := Octets(a);
    SplitFour(NatStr(o[0]), NatStr(o[1]), NatStr(o[2]), NatStr(o[3]));
  }

  /** Reading `str(ip)` back gives the address. */
  lemma DottedRoundTrip(a: Address)
    ensures ParseDotted(Dotted(a)) == Some(a)
  {
    var o := Octets(a);
    DottedParts(a);
    OctetRoundTrip(o[0]);
    OctetRoundTrip(o[1]);
    OctetRoundTrip(o[2]);
    OctetRoundTrip(o[3]);
  }

  /** Different addresses have different texts. */
  lemma DottedInjective(a: Address, b: Address)
    requires Dotted(a) == Dotted(b)
    ensures a == b
  {
    DottedRoundTrip(a);
    DottedRoundTrip(b);
  }

  /** `[str(ip) for ip in network.hosts()]`. */
  function HostStrings(b: Block): (r: seq<string>)
    ensures |r| == |HostAddrs(b)|
    ensures forall i :: 0 <= i < |r| ==> r[i] == Dotted(HostAddrs(b)[i])
  {
    seq(|HostAddrs(b)|, i requires 0 <= i < |HostAddrs(b)| => Dotted(HostAddrs(b)[i]))
  }

  /** An expanded block never lists the same host text twice. */
  lemma HostStringsDistinct(b: Block)
    ensures forall i, j :: 0 <= i < j < |HostStrings(b)| ==> HostStrings(b)[i] != HostStrings(b)[j]
  {
    var r := HostStrings(b);
    HostsAscending(b);
    forall i, j | 0 <= i < j < |r|
      ensures r[i] != r[j]
    {
      if r[i] == r[j] {
        DottedInjective(HostAddrs(b)[i], HostAddrs(b)[j]);
      }
    }
  }
}
