// IPv4 networks: the DHCP range of a subnet and the static leases, in 32-bit arithmetic that wraps around.
module Ipv4 {
  import opened Common
  import opened Strings
  import opened Bits
  import opened Pieces

  const LIMIT: nat := 0x1_0000_0000

  newtype Uint32 = n: int | 0 <= n < LIMIT

  function Wrap(n: int): Uint32 { (n % LIMIT) as Uint32 }

  function Add(a: Uint32, b: Uint32): Uint32 { Wrap(a as int + b as int) }

  function Sub(a: Uint32, b: Uint32): Uint32 { Wrap(a as int - b as int) }

  function Not(a: Uint32): Uint32 { (LIMIT - 1 - a as int) as Uint32 }

  /** Shifting left; a shift by 32 leaves nothing. */
  function Shl(a: Uint32, k: nat): Uint32 { Wrap(a as int * Pow2(k)) }

  function BitAnd(a: Uint32, b: Uint32): Uint32 { Wrap(And(a as nat, b as nat)) }

  function BitOr(a: Uint32, b: Uint32): Uint32 { Wrap(Or(a as nat, b as nat)) }

  /** The low byte of a shifted right by k bits. */
  function ByteAt(a: Uint32, k: nat): (b: nat)
    ensures b < 256
  {
    a as nat / Pow2(k) % 256
  }

  // ---------- Masks ----------

  /** The number of addresses in a block. */
  function Size(prefix: nat): (s: nat)
    requires prefix <= 32
    ensures s > 0
  {
    Pow2(32 - prefix)
  }

  function Mask(prefix: nat): Uint32
    requires prefix <= 32
  {
    Shl(0xffff_ffff, 32 - prefix)
  }

  lemma Limit()
    ensures Pow2(32) == LIMIT
  {
    assert Pow2(4) == 16;
    Pow2Sum(4, 4);
    Pow2Sum(8, 8);
    Pow2Sum(16, 16);
    hide Pow2;
  }

  lemma SizeBound(prefix: nat)
    requires prefix <= 32
    ensures Size(prefix) <= LIMIT
  {
    Limit();
    Pow2Monotone(32 - prefix, 32);
  }

  lemma MaskValue(prefix: nat)
    requires prefix <= 32
    ensures Mask(prefix) as int == LIMIT - Size(prefix) && Not(Mask(prefix)) as int == Size(prefix) - 1
  {
    SizeBound(prefix);
    var size := Size(prefix);
    assert (LIMIT - 1) * size == (size - 1) * LIMIT + (LIMIT - size);
    DivModUnique((LIMIT - 1) * size, LIMIT, size - 1, LIMIT - size);
  }

  // ---------- Networks ----------

  /** ipv4CIDR of a parsed address and prefix: the network address. */
  function Network(address: Uint32, prefix: nat): Uint32
    requires prefix <= 32
  {
    BitAnd(address, Mask(prefix))
  }

  /** The network is the first address of the block, aligned to its size, and the block ends in range. */
  lemma NetworkValue(address: Uint32, prefix: nat)
    requires prefix <= 32
    ensures var n := Network(address, prefix) as nat;
            && n == address as nat - address as nat % Size(prefix)
            && n % Size(prefix) == 0 && n <= address as nat < n + Size(prefix) <= LIMIT
  {
    var a, size := address as nat, Size(prefix);
    NetworkClears(address, prefix);
    BlockEnds(a, prefix);
    hide Size, Network;
    Aligned(a, size);
  }

  lemma NetworkClears(address: Uint32, prefix: nat)
    requires prefix <= 32
    ensures Network(address, prefix) as int == address as int - address as int % Size(prefix)
  {
    Limit();
    MaskValue(prefix);
    AndMask(address as nat, 32, 32 - prefix);
    hide Mask, And, Pow2;
  }

  lemma BlockEnds(a: nat, prefix: nat)
    requires prefix <= 32 && a < LIMIT
    ensures a - a % Size(prefix) + Size(prefix) <= LIMIT
  {
    Limit();
    Pow2Sum(prefix, 32 - prefix);
    hide Pow2;
    AlignedEnd(a, Size(prefix), Pow2(prefix));
  }

  /** cidrUsableRange */
  function UsableRange(network: Uint32, mask: Uint32, prefix: nat): (Uint32, Uint32, Uint32) {
    var broadcast := BitOr(network, Not(mask));
    if prefix > 30 || broadcast <= Add(network, 1) then (network, 0, 0)
    else
      var gateway := Add(network, 1);
      var start := Add(gateway, 1);
      var end := Sub(broadcast, 1);
      if start > end then (gateway, 0, 0) else (gateway, start, end)
  }

  function Range(address: Uint32, prefix: nat): (Uint32, Uint32, Uint32)
    requires prefix <= 32
  {
    UsableRange(Network(address, prefix), Mask(prefix), prefix)
  }

  lemma Broadcast(address: Uint32, prefix: nat)
    requires prefix <= 32
    ensures BitOr(Network(address, prefix), Not(Mask(prefix))) as int
              == Network(address, prefix) as int + Size(prefix) - 1
  {
    NetworkValue(address, prefix);
    MaskValue(prefix);
    OrLow(Network(address, prefix) as nat, 32 - prefix);
  }

  lemma SmallSizes(prefix: nat)
    requires prefix <= 30
    ensures Size(prefix) >= 4
  {
    assert Pow2(2) == 4;
    Pow2Monotone(2, 32 - prefix);
  }

  /** Nothing wraps around: the gateway is the second address, and the range runs from the third one to the one
      before the broadcast address; the two longest prefixes have no range. */
  lemma RangeValue(address: Uint32, prefix: nat)
    requires prefix <= 32
    ensures var n := Network(address, prefix); var (gateway, start, end) := Range(address, prefix);
            if prefix > 30 then gateway == n && start == 0 && end == 0
            else (gateway as int == n as int + 1 && start as int == n as int + 2
                  && end as int == n as int + Size(prefix) - 2)
  {
    NetworkValue(address, prefix);
    Broadcast(address, prefix);
    if prefix <= 30 {
      SmallSizes(prefix);
    }
    hide Network, Mask, BitOr, Not, Size;
    UsableValue(Network(address, prefix), Mask(prefix), prefix, Size(prefix));
  }

  lemma Exact(a: int)
    requires 0 <= a < LIMIT
    ensures Wrap(a) as int == a
  {
  }

  lemma UsableValue(network: Uint32, mask: Uint32, prefix: nat, size: nat)
    requires BitOr(network, Not(mask)) as int == network as int + size - 1 && network as int + size <= LIMIT
    requires prefix <= 30 ==> size >= 4
    ensures var (gateway, start, end) := UsableRange(network, mask, prefix);
            if prefix > 30 then gateway == network && start == 0 && end == 0
            else (gateway as int == network as int + 1 && start as int == network as int + 2
                  && end as int == network as int + size - 2)
  {
    hide BitOr, Not, Wrap;
    if prefix <= 30 {
      Exact(network as int + 1);
      Exact(network as int + 2);
      Exact(network as int + size - 2);
    }
  }

  // ---------- Leases ----------

  datatype FixedAddress = FixedAddress(address: string, mac: string)

  function HexDigit(d: nat): char
    requires d < 16
  {
    "0123456789abcdef"[d]
  }

  /** %02x */
  function Hex2(b: nat): (s: string)
    requires b < 256
    ensures |s| == 2
  {
    [HexDigit(b / 16), HexDigit(b % 16)]
  }

  function DottedQuad(ip: Uint32): string {
    Decimal(ByteAt(ip, 24)) + "." + Decimal(ByteAt(ip, 16)) + "." + Decimal(ByteAt(ip, 8)) + "."
      + Decimal(ByteAt(ip, 0))
  }

  function FixedMac(ip: Uint32): string {
    "52:54:00:" + Hex2(ByteAt(ip, 16)) + ":" + Hex2(ByteAt(ip, 8)) + ":" + Hex2(ByteAt(ip, 0))
  }

  function Lease(ip: Uint32): FixedAddress { FixedAddress(DottedQuad(ip), FixedMac(ip)) }

  const MAX_ENTRIES: int := 4096

  /** fixedAddressRange of a parsed address and prefix */
  function LeaseRange(address: Uint32, prefix: nat): Option<(Uint32, Uint32)>
    requires prefix <= 32
  {
    var (_, start, end) := Range(address, prefix);
    if start != 0 && end != 0 && start <= end then Some((start, end)) else None
  }

  /** The range written as start and end of the DHCP range by cidrNetwork; None if the texts are empty. */
  function DhcpRange(address: Uint32, prefix: nat): Option<(Uint32, Uint32)>
    requires prefix <= 32
  {
    var (_, start, end) := Range(address, prefix);
    if start != 0 || end != 0 then Some((start, end)) else None
  }

  lemma LeaseRangeValue(address: Uint32, prefix: nat)
    requires prefix <= 32
    ensures LeaseRange(address, prefix).Some? <==> prefix <= 30
    ensures LeaseRange(address, prefix) == DhcpRange(address, prefix)
    ensures prefix <= 30 ==>
              var n := Network(address, prefix) as int; var (start, end) := LeaseRange(address, prefix).value;
              start as int == n + 2 && end as int == n + Size(prefix) - 2 && n + Size(prefix) <= LIMIT && start <= end
  {
    RangeValue(address, prefix);
    NetworkValue(address, prefix);
    hide Range, Network, Size;
    if prefix <= 30 {
      SmallSizes(prefix);
    }
  }

  lemma TooLarge(prefix: nat)
    requires prefix <= 30
    ensures Size(prefix) - 3 <= MAX_ENTRIES <==> prefix >= 20
    ensures prefix >= 20 ==> Size(prefix) <= 4096
  {
    assert Pow2(8) == 256;
    Pow2Sum(8, 4);
    assert Pow2(4) == 16;
    assert Pow2(13) == 2 * Pow2(12);
    if prefix >= 20 {
      Pow2Monotone(32 - prefix, 12);
    } else {
      Pow2Monotone(13, 32 - prefix);
    }
  }

  /** The leases of a block: every address from the third to the one before the broadcast address, in order. */
  ghost predicate AllLeases(entries: seq<FixedAddress>, address: Uint32, prefix: nat)
    requires prefix <= 32
  {
    var n := Network(address, prefix) as int;
    && |entries| == Size(prefix) - 3
    && forall i :: 0 <= i < |entries| ==> entries[i] == Lease(Wrap(n + 2 + i))
  }

  /** fixedAddressEntries: accepted exactly for prefixes from 20 to 30. */
  method FixedAddressEntries(address: Uint32, prefix: nat) returns (r: Result<seq<FixedAddress>>)
    requires prefix <= 32
    ensures r.Ok? <==> 20 <= prefix <= 30
    ensures r.Ok? ==> AllLeases(r.value, address, prefix)
  {
    hide LeaseRange, DhcpRange, Network, Size, Lease;
    LeaseRangeValue(address, prefix);
    var range := LeaseRange(address, prefix);
    if range.None? {
      return Err("subnet is too small for fixed address");
    }
    var (start, end) := range.value;
    TooLarge(prefix);
    var total := Add(Sub(end, start), 1) as int;
    if total > MAX_ENTRIES {
      return Err("fixed address range is too large");
    }
    var entries: seq<FixedAddress> := [];
    var ip := start;
    while ip <= end
      invariant start <= ip && ip as int == start as int + |entries| <= end as int + 1
      invariant forall i :: 0 <= i < |entries| ==> entries[i] == Lease(Wrap(start as int + i))
      decreases end as int - ip as int
    {
      entries := entries + [Lease(ip)];
      ip := Add(ip, 1);
    }
    return Ok(entries);
  }

  // ---------- What the leases are ----------

  /** The i-th lease is for the address i + 2 of the network, without wrapping around. */
  lemma LeaseAt(entries: seq<FixedAddress>, address: Uint32, prefix: nat, i: nat) returns (ip: Uint32)
    requires 20 <= prefix <= 30 && AllLeases(entries, address, prefix) && i < |entries|
    ensures entries[i] == Lease(ip) && ip as int == Network(address, prefix) as int + 2 + i
  {
    hide Network, Size, Lease, Wrap;
    NetworkValue(address, prefix);
    ip := Wrap(Network(address, prefix) as int + 2 + i);
    Exact(Network(address, prefix) as int + 2 + i);
  }

  /** The leases run over the DHCP range, from its start to its end. */
  lemma LeasesMatchDhcp(entries: seq<FixedAddress>, address: Uint32, prefix: nat)
    requires 20 <= prefix <= 30 && AllLeases(entries, address, prefix)
    ensures entries != [] && DhcpRange(address, prefix).Some?
    ensures var (start, end) := DhcpRange(address, prefix).value;
            entries[0] == Lease(start) && entries[|entries| - 1] == Lease(end)
  {
    hide *;
    LeaseRangeValue(address, prefix);
    SmallSizes(prefix);
    LeaseCount(entries, address, prefix);
    var first := LeaseAt(entries, address, prefix, 0);
    var last := LeaseAt(entries, address, prefix, |entries| - 1);
  }

  lemma LeaseCount(entries: seq<FixedAddress>, address: Uint32, prefix: nat)
    requires prefix <= 30 && AllLeases(entries, address, prefix)
    ensures |entries| == Size(prefix) - 3
  {
    hide Size, Network, Lease, Wrap;
  }

  /** No lease is for the network, gateway or broadcast address. */
  lemma LeaseInside(entries: seq<FixedAddress>, address: Uint32, prefix: nat, i: nat) returns (ip: Uint32)
    requires 20 <= prefix <= 30 && AllLeases(entries, address, prefix) && i < |entries|
    ensures entries[i] == Lease(ip)
    ensures Network(address, prefix) < Range(address, prefix).0 < ip
    ensures ip < BitOr(Network(address, prefix), Not(Mask(prefix)))
  {
    hide *;
    RangeValue(address, prefix);
    Broadcast(address, prefix);
    LeaseCount(entries, address, prefix);
    ip := LeaseAt(entries, address, prefix, i);
  }

  lemma Hex2Injective(a: nat, b: nat)
    requires a < 256 && b < 256 && Hex2(a) == Hex2(b)
    ensures a == b
  {
    assert HexDigit(a / 16) == Hex2(a)[0] == Hex2(b)[0] == HexDigit(b / 16);
    assert HexDigit(a % 16) == Hex2(a)[1] == Hex2(b)[1] == HexDigit(b % 16);
    HexDigitInjective(a / 16, b / 16);
    HexDigitInjective(a % 16, b % 16);
  }

  lemma HexDigitInjective(a: nat, b: nat)
    requires a < 16 && b < 16 && HexDigit(a) == HexDigit(b)
    ensures a == b
  {
    var digits := "0123456789abcdef";
    assert digits[a] == HexDigit(a) && digits[b] == HexDigit(b);
  }

  const LOW: nat := 0x100_0000

  lemma LowBytes(ip: Uint32)
    ensures ip as nat % LOW == ByteAt(ip, 16) * 65536 + ByteAt(ip, 8) * 256 + ByteAt(ip, 0)
  {
    BytePowers();
    hide Pow2;
    ByteSplit(ip as nat);
  }

  lemma BytePowers()
    ensures Pow2(0) == 1 && Pow2(8) == 256 && Pow2(16) == 65536
  {
    assert Pow2(4) == 16;
    Pow2Sum(4, 4);
    Pow2Sum(8, 8);
  }

  lemma ByteSplit(n: nat)
    ensures n % LOW == n / 65536 % 256 * 65536 + n / 256 % 256 * 256 + n % 256
  {
    var q := n / 256;
    var q2 := q / 256;
    DivModUnique(n, 65536, q2, q % 256 * 256 + n % 256);
    DivModUnique(n, LOW, q2 / 256, q2 % 256 * 65536 + q % 256 * 256 + n % 256);
  }

  lemma MacParts(ip: Uint32)
    ensures var m := FixedMac(ip);
            |m| == 17 && m[9..11] == Hex2(ByteAt(ip, 16)) && m[12..14] == Hex2(ByteAt(ip, 8))
              && m[15..17] == Hex2(ByteAt(ip, 0))
  {
    hide Hex2, ByteAt;
    var m, a, b, c := FixedMac(ip), Hex2(ByteAt(ip, 16)), Hex2(ByteAt(ip, 8)), Hex2(ByteAt(ip, 0));
    MacText(m, a, b, c);
  }

  lemma MacText(m: string, a: string, b: string, c: string)
    requires |a| == 2 && |b| == 2 && |c| == 2 && m == "52:54:00:" + a + ":" + b + ":" + c
    ensures |m| == 17 && m[9..11] == a && m[12..14] == b && m[15..17] == c
  {
  }

  /** Equal MACs mean equal low 24 bits. */
  lemma MacInjective(x: Uint32, y: Uint32)
    requires FixedMac(x) == FixedMac(y)
    ensures x as nat % LOW == y as nat % LOW
  {
    MacParts(x);
    MacParts(y);
    hide FixedMac, ByteAt;
    Hex2Injective(ByteAt(x, 16), ByteAt(y, 16));
    Hex2Injective(ByteAt(x, 8), ByteAt(y, 8));
    Hex2Injective(ByteAt(x, 0), ByteAt(y, 0));
    LowBytes(x);
    LowBytes(y);
  }

  /** All leases have different MACs, although only 24 bits of the address go into one. */
  lemma DistinctMacs(entries: seq<FixedAddress>, address: Uint32, prefix: nat, i: nat, j: nat)
    requires 20 <= prefix <= 30 && AllLeases(entries, address, prefix) && i < j < |entries|
    ensures entries[i].mac != entries[j].mac
  {
    hide Network, Size, FixedMac, DottedQuad, AllLeases;
    TooLarge(prefix);
    LeaseCount(entries, address, prefix);
    var x := LeaseAt(entries, address, prefix, i);
    var y := LeaseAt(entries, address, prefix, j);
    if entries[i].mac == entries[j].mac {
      MacInjective(x, y);
      SameLow(x as nat, y as nat);
    }
  }

  lemma SameLow(x: nat, y: nat)
    requires x % LOW == y % LOW && x <= y < x + LOW
    ensures x == y
  {
  }

  // ---------- The texts of a lease ----------

  predicate AllDigits(s: string) { forall i :: 0 <= i < |s| ==> IsDigit(s[i]) }

  /** The address a dotted text stands for. */
  ghost predicate ReadsAddress(text: string, ip: nat) {
    var parts := Split(text, '.');
    && |parts| == 4 && (forall i :: 0 <= i < 4 ==> AllDigits(parts[i]) && ParseDecimal(parts[i]) < 256)
    && ip == ((ParseDecimal(parts[0]) * 256 + ParseDecimal(parts[1])) * 256 + ParseDecimal(parts[2])) * 256
             + ParseDecimal(parts[3])
  }

  lemma FourParts(a: string, b: string, c: string, d: string)
    requires '.' !in a && '.' !in b && '.' !in c && '.' !in d
    ensures Split(a + "." + b + "." + c + "." + d, '.') == [a, b, c, d]
  {
    hide Split;
    SplitWord(a, b + "." + c + "." + d, '.');
    SplitWord(b, c + "." + d, '.');
    SplitWord(c, d, '.');
    SplitWord(d, "", '.');
    assert a + "." + b + "." + c + "." + d == a + ['.'] + (b + "." + c + "." + d);
    assert b + "." + c + "." + d == b + ['.'] + (c + "." + d);
    assert c + "." + d == c + ['.'] + d;
  }

  lemma DecimalPart(n: nat)
    ensures '.' !in Decimal(n) && AllDigits(Decimal(n)) && ParseDecimal(Decimal(n)) == n
  {
    DecimalRoundTrip(n);
  }

  lemma FourBytes(ip: Uint32)
    ensures ip as nat == ((ByteAt(ip, 24) * 256 + ByteAt(ip, 16)) * 256 + ByteAt(ip, 8)) * 256 + ByteAt(ip, 0)
  {
    LowBytes(ip);
    BytePowers();
    Pow2Sum(16, 8);
    hide Pow2;
    var n := ip as nat;
    assert ByteAt(ip, 24) == n / LOW % 256 == n / LOW;
  }

  lemma AddressReads(ip: Uint32)
    ensures ReadsAddress(DottedQuad(ip), ip as nat)
  {
    hide Split, Decimal, ParseDecimal, ByteAt;
    var a, b, c, d := ByteAt(ip, 24), ByteAt(ip, 16), ByteAt(ip, 8), ByteAt(ip, 0);
    DecimalPart(a);
    DecimalPart(b);
    DecimalPart(c);
    DecimalPart(d);
    FourParts(Decimal(a), Decimal(b), Decimal(c), Decimal(d));
    FourBytes(ip);
  }

  /** The number two lower-case hexadecimal digits stand for. */
  predicate ReadsHex(text: string, n: nat) {
    && |text| == 2
    && exists h, l :: 0 <= h < 16 && 0 <= l < 16 && n == h * 16 + l && "0123456789abcdef"[h] == text[0]
                      && "0123456789abcdef"[l] == text[1]
  }

  lemma Hex2Reads(b: nat)
    requires b < 256
    ensures ReadsHex(Hex2(b), b)
  {
    var h, l := b / 16, b % 16;
    assert b == h * 16 + l && "0123456789abcdef"[h] == Hex2(b)[0] && "0123456789abcdef"[l] == Hex2(b)[1];
  }

  /** A MAC that starts with 52:54:00 and ends with three bytes, highest first. */
  ghost predicate ReadsMac(text: string, low: nat) {
    && |text| == 17 && text[..9] == "52:54:00:" && text[11] == text[14] == ':'
    && exists a: nat, b: nat, c: nat ::
      ReadsHex(text[9..11], a) && ReadsHex(text[12..14], b) && ReadsHex(text[15..17], c)
                         && low == (a * 256 + b) * 256 + c
  }

  /** A lease names the address in dotted decimal, and a MAC with the three low bytes of the address. */
  lemma LeaseReads(ip: Uint32)
    ensures ReadsAddress(Lease(ip).address, ip as nat) && ReadsMac(Lease(ip).mac, ip as nat % 0x100_0000)
  {
    AddressReads(ip);
    LeaseMac(ip);
    hide ReadsAddress, ReadsMac, DottedQuad, FixedMac;
  }

  lemma LeaseMac(ip: Uint32)
    ensures ReadsMac(FixedMac(ip), ip as nat % 0x100_0000)
  {
    MacParts(ip);
    MacFrame(ip);
    LowBytes(ip);
    Hex2Reads(ByteAt(ip, 16));
    Hex2Reads(ByteAt(ip, 8));
    Hex2Reads(ByteAt(ip, 0));
    hide ReadsHex, FixedMac, Hex2, ByteAt;
    assert ip as nat % 0x100_0000 == (ByteAt(ip, 16) * 256 + ByteAt(ip, 8)) * 256 + ByteAt(ip, 0);
  }

  lemma MacFrame(ip: Uint32)
    ensures var m := FixedMac(ip); |m| == 17 && m[..9] == "52:54:00:" && m[11] == m[14] == ':'
  {
    hide Hex2, ByteAt;
    var m, a, b, c := FixedMac(ip), Hex2(ByteAt(ip, 16)), Hex2(ByteAt(ip, 8)), Hex2(ByteAt(ip, 0));
    MacRest(m, a, b, c);
  }

  lemma MacRest(m: string, a: string, b: string, c: string)
    requires |a| == 2 && |b| == 2 && |c| == 2 && m == "52:54:00:" + a + ":" + b + ":" + c
    ensures |m| == 17 && m[..9] == "52:54:00:" && m[11] == m[14] == ':'
  {
    assert m == "52:54:00:" + (a + ":" + b + ":" + c);
  }
}
