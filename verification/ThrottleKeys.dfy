/** The networks a login failure is counted against. */
module ThrottleKeys {

  /** An IPv4 address as its four octets, an IPv6 address as its eight 16-bit groups. */
  datatype IpAddr =
    | V4(o0: nat, o1: nat, o2: nat, o3: nat)
    | V6(g0: nat, g1: nat, g2: nat, g3: nat, g4: nat, g5: nat, g6: nat, g7: nat)

  datatype Key = Key(net: IpAddr, prefix: nat)

  /** How coarse a key is: 0 for a lone IPv4 address or an IPv6 /64, 1 for a /24 or /48,
      2 for a /16 or /32. */
  function Tier(k: Key): nat {
    if k.net.V4? then (if k.prefix == 32 then 0 else if k.prefix == 24 then 1 else 2)
    else if k.prefix == 64 then 0 else if k.prefix == 48 then 1 else 2
  }

  /** A v4-mapped IPv6 address stands for the IPv4 address it carries. */
  function Plain(ip: IpAddr): IpAddr {
    match ip
    case V6(0, 0, 0, 0, 0, 0xFFFF, g6, g7) => V4(g6 / 256, g6 % 256, g7 / 256, g7 % 256)
    case _ => ip
  }

  /** The address agrees with the key's network on all the bits of its prefix. */
  predicate Covers(k: Key, ip: IpAddr) {
    match Plain(ip)
    case V4(o0, o1, o2, o3) =>
      && k.net.V4? && (k.net.o0, k.net.o1) == (o0, o1)
      && (k.prefix >= 24 ==> k.net.o2 == o2) && (k.prefix >= 32 ==> k.net.o3 == o3)
    case V6(g0, g1, g2, g3, _, _, _, _) =>
      && k.net.V6? && (k.net.g0, k.net.g1) == (g0, g1)
      && (k.prefix >= 48 ==> k.net.g2 == g2) && (k.prefix >= 64 ==> k.net.g3 == g3)
  }

  /** The keys of an address, most specific first: one network of each size around it. */
  function KeysOf(ip: IpAddr): (keys: seq<Key>)
    ensures |keys| == 3
    ensures forall i :: 0 <= i < 3 ==> Tier(keys[i]) == i && Covers(keys[i], ip)
  {
    match Plain(ip)
    case V4(o0, o1, o2, o3) =>
      [Key(V4(o0, o1, o2, o3), 32), Key(V4(o0, o1, o2, 0), 24), Key(V4(o0, o1, 0, 0), 16)]
    case V6(g0, g1, g2, g3, _, _, _, _) =>
      [Key(V6(g0, g1, g2, g3, 0, 0, 0, 0), 64), Key(V6(g0, g1, g2, 0, 0, 0, 0, 0), 48),
       Key(V6(g0, g1, 0, 0, 0, 0, 0, 0), 32)]
  }

  /** An address lies in a network of another exactly when it is counted under it too. */
  lemma CoveredIsCounted(ip: IpAddr, ip': IpAddr, i: nat)
    requires i < 3
    ensures Covers(KeysOf(ip)[i], ip') <==> KeysOf(ip')[i] == KeysOf(ip)[i]
  {
  }

  /** Addresses counted under one network share every coarser one. */
  lemma NetworksNest(ip: IpAddr, ip': IpAddr, i: nat, j: nat)
    requires i <= j < 3 && KeysOf(ip)[i] == KeysOf(ip')[i]
    ensures KeysOf(ip)[j] == KeysOf(ip')[j]
  {
  }

  /** A v4-mapped IPv6 address has exactly the keys of the IPv4 address it carries, and any
      other address keys under its own family. */
  lemma MappedKeysAsV4(o0: nat, o1: nat, o2: nat, o3: nat)
    requires o0 < 256 && o1 < 256 && o2 < 256 && o3 < 256
    ensures KeysOf(V6(0, 0, 0, 0, 0, 0xFFFF, o0 * 256 + o1, o2 * 256 + o3)) == KeysOf(V4(o0, o1, o2, o3))
  {
  }

  lemma OthersKeyAsTheyAre(ip: IpAddr)
    requires ip.V4? || !(ip.g0 == ip.g1 == ip.g2 == ip.g3 == ip.g4 == 0 && ip.g5 == 0xFFFF)
    ensures match ip
            case V4(o0, o1, o2, o3) =>
              KeysOf(ip) == [Key(ip, 32), Key(V4(o0, o1, o2, 0), 24), Key(V4(o0, o1, 0, 0), 16)]
            case V6(g0, g1, g2, g3, _, _, _, _) =>
              KeysOf(ip) == [Key(V6(g0, g1, g2, g3, 0, 0, 0, 0), 64), Key(V6(g0, g1, g2, 0, 0, 0, 0, 0), 48),
                             Key(V6(g0, g1, 0, 0, 0, 0, 0, 0), 32)]
  {
  }
}
