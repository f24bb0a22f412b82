// Whether a static address may be given to a new host interface: its block must be disjoint from the blocks
// of the other interfaces, which two point-in-block tests decide.
module AddressOverlap {
  import opened Common
  import opened Strings
  import opened Bits

  datatype Family = V4 | V6

  function Width(f: Family): nat { if f.V4? then 32 else 128 }

  /** A parsed CIDR address: the address itself and its prefix length. */
  datatype Cidr = Cidr(ip: nat, prefix: nat)

  predicate Valid(c: Cidr, width: nat) {
    c.prefix <= width && c.ip < Pow2(width)
  }

  datatype Interface = Interface(name: string, v4: Option<Cidr>, v6: Option<Cidr>) {
    function Address(f: Family): Option<Cidr> { if f.V4? then v4 else v6 }

    predicate Parsed() {
      (v4.Some? ==> Valid(v4.value, 32)) && (v6.Some? ==> Valid(v6.value, 128))
    }
  }

  // ---------- Blocks ----------

  /** IPNet.Contains: the masked addresses agree. */
  predicate Contains(c: Cidr, width: nat, x: nat)
    requires Valid(c, width)
  {
    Pow2Monotone(width - c.prefix, width);
    And(x, Pow2(width) - Pow2(width - c.prefix)) == And(c.ip, Pow2(width) - Pow2(width - c.prefix))
  }

  /** No address lies in both blocks. */
  ghost predicate Disjoint(a: Cidr, b: Cidr, width: nat)
    requires Valid(a, width) && Valid(b, width)
  {
    forall x :: 0 <= x < Pow2(width) ==> !(Contains(a, width, x) && Contains(b, width, x))
  }

  lemma ContainsQuotient(c: Cidr, width: nat, x: nat)
    requires Valid(c, width) && x < Pow2(width)
    ensures var size := Pow2(width - c.prefix); Contains(c, width, x) <==> x / size == c.ip / size
  {
    AndMask(x, width, width - c.prefix);
    AndMask(c.ip, width, width - c.prefix);
    hide And, Pow2;
    SameQuotient(x, c.ip, Pow2(width - c.prefix));
  }

  lemma SameQuotient(x: nat, y: nat, d: nat)
    requires d > 0
    ensures x - x % d == y - y % d <==> x / d == y / d
  {
    assert x == x / d * d + x % d && y == y / d * d + y % d;
    var k := x / d - y / d;
    assert k * d == x / d * d - y / d * d;
    MultipleAtLeast(k, d);
  }

  lemma DivDiv(n: nat, d: nat, e: nat)
    requires d > 0 && e > 0
    ensures d * e > 0 && n / (d * e) == n / d / e
  {
    var q, r := n / d, n % d;
    Combine(n, d, e, q, r, q / e, q % e);
    BelowProduct(q % e, r, d, e);
    DivModUnique(n, d * e, q / e, q % e * d + r);
  }

  lemma Combine(n: nat, d: nat, e: nat, q: nat, r: nat, p: nat, s: nat)
    requires q * d + r == n && p * e + s == q
    ensures p * (d * e) + (s * d + r) == n
  {
    Distribute(p, s, d, e);
  }

  lemma Distribute(p: nat, s: nat, d: nat, e: nat)
    ensures (p * e + s) * d == p * (d * e) + s * d
  {
  }

  lemma BelowProduct(s: nat, r: nat, d: nat, e: nat)
    requires s < e && r < d
    ensures s * d + r < d * e
  {
    MultipleAtLeast(e - s, d);
    assert (e - s) * d == e * d - s * d;
    assert e * d == d * e;
  }

  /** An address of a block of the longer prefix is in the other block exactly if the whole block is. */
  lemma Nested(a: Cidr, b: Cidr, width: nat, x: nat)
    requires Valid(a, width) && Valid(b, width) && a.prefix <= b.prefix && x < Pow2(width)
    requires Contains(b, width, x)
    ensures Contains(a, width, x) <==> Contains(a, width, b.ip)
  {
    var large, small := Pow2(width - a.prefix), Pow2(width - b.prefix);
    Pow2Sum(width - b.prefix, b.prefix - a.prefix);
    ContainsQuotient(b, width, x);
    ContainsQuotient(a, width, x);
    ContainsQuotient(a, width, b.ip);
    hide Contains, Pow2;
    DivDiv(x, small, Pow2(b.prefix - a.prefix));
    DivDiv(b.ip, small, Pow2(b.prefix - a.prefix));
  }

  lemma ContainsItself(c: Cidr, width: nat)
    requires Valid(c, width)
    ensures Contains(c, width, c.ip)
  {
  }

  /** The two point tests fail exactly if the blocks are disjoint. */
  lemma PointTests(a: Cidr, b: Cidr, width: nat)
    requires Valid(a, width) && Valid(b, width)
    ensures Disjoint(a, b, width) <==> !Contains(a, width, b.ip) && !Contains(b, width, a.ip)
  {
    ContainsItself(a, width);
    ContainsItself(b, width);
    hide Contains;
    forall x | 0 <= x < Pow2(width) && Contains(a, width, x) && Contains(b, width, x)
      ensures Contains(a, width, b.ip) || Contains(b, width, a.ip)
    {
      if a.prefix <= b.prefix {
        Nested(a, b, width, x);
      } else {
        Nested(b, a, width, x);
      }
    }
  }

  // ---------- The validation ----------

  /** isAllowedBridgeSourceAddress */
  predicate IsAllowed(item: Interface, device: string) {
    TrimSpace(device) != "" && EqualFold(TrimSpace(item.name), TrimSpace(device))
  }

  /** A bridge source is named, and it is that interface. */
  predicate IsSource(item: Interface, device: string) {
    !Blank(device) && EqualFold(TrimSpace(device), TrimSpace(item.name))
  }

  lemma AllowedIsSource(item: Interface, device: string)
    ensures IsAllowed(item, device) <==> IsSource(item, device)
  {
    hide TrimSpace;
    SameFold(TrimSpace(device), TrimSpace(item.name));
  }

  lemma SameFold(s: string, t: string)
    ensures EqualFold(s, t) <==> EqualFold(t, s)
  {
  }

  /** The interface has an address, is not the named bridge source, and its block meets the requested one. */
  ghost predicate Clashes(request: Cidr, f: Family, device: string, item: Interface)
    requires Valid(request, Width(f)) && item.Parsed()
  {
    && !IsSource(item, device) && item.Address(f).Some?
    && !Disjoint(request, item.Address(f).value, Width(f))
  }

  lemma Outcome(request: Cidr, f: Family, device: string, item: Interface)
    requires Valid(request, Width(f)) && item.Parsed()
    ensures Clashes(request, f, device, item) <==>
              && !IsAllowed(item, device) && item.Address(f).Some?
              && (request.ip == item.Address(f).value.ip || Contains(request, Width(f), item.Address(f).value.ip)
                  || Contains(item.Address(f).value, Width(f), request.ip))
  {
    hide IsAllowed, IsSource, Contains, Disjoint;
    AllowedIsSource(item, device);
    if item.Address(f).Some? {
      PointTests(request, item.Address(f).value, Width(f));
      ContainsItself(request, Width(f));
    }
  }

  /** validateRequestedAddressUniqueness on parsed addresses; None is an address that does not parse. */
  method ValidateUniqueness(mode: string, address: Option<Cidr>, f: Family, device: string, existing: seq<Interface>)
    returns (r: Result<()>)
    requires address.Some? ==> Valid(address.value, Width(f))
    requires forall i :: 0 <= i < |existing| ==> existing[i].Parsed()
    ensures r.Ok? <==> ToLower(TrimSpace(mode)) != "static"
                       || (address.Some? && forall i :: 0 <= i < |existing| ==>
                             !Clashes(address.value, f, device, existing[i]))
  {
    hide TrimSpace, ToLower, IsAllowed, IsSource, Contains, Clashes, Pow2;
    if ToLower(TrimSpace(mode)) != "static" {
      return Ok(());
    }
    if address.None? {
      return Err("address is invalid");
    }
    var request := address.value;
    for i := 0 to |existing|
      invariant forall k :: 0 <= k < i ==> !Clashes(request, f, device, existing[k])
    {
      Outcome(request, f, device, existing[i]);
      if IsAllowed(existing[i], device) {
        continue;
      }
      var other := existing[i].Address(f);
      if other.None? {
        continue;
      }
      if request.ip == other.value.ip {
        return Err("address already exists");
      }
      if Contains(request, Width(f), other.value.ip) || Contains(other.value, Width(f), request.ip) {
        return Err("subnet already exists");
      }
    }
    return Ok(());
  }
}
