module Ip {
  // The IP header in its internal representation (ip.h), and its fragmentation (RFC 791, section 3.2).

  import opened Bytes
  import opened Lists

  const IPLEN := 20

  const IP_MAXOPT := 40

  type uint16 = x: int | 0 <= x < 0x1_0000 witness 0

  type uint32 = x: int | 0 <= x < 0x1_0000_0000 witness 0

  type Options = d: Data | |d| <= IP_MAXOPT

  /** Reduction of a 16-bit sum or difference modulo 2^16. */
  function Wrap16(x: int): uint16
    requires -0x1_0000 <= x < 0x2_0000
  {
    if x < 0 then x + 0x1_0000 else if x < 0x1_0000 then x else x - 0x1_0000
  }

  datatype Ip = Ip(
    source: uint32, dest: uint32, length: uint16, id: uint16, offset: uint16, checksum: uint16,
    congest: bool, df: bool, mf: bool, version: byte, tos: byte, ttl: byte, protocol: byte, options: Options)
  {
    function HdrLen(): nat { IPLEN + |options| }
  }

  /** A datagram or fragment: its header and its data portion. */
  datatype Datagram = Datagram(ip: Ip, data: Data)

  /** The size of the data of the next fragment, as the loop in `ip_route` chooses it. */
  function FragSize(left: nat, hdr: nat, mtu: nat): nat
    requires mtu >= hdr
  {
    if left + hdr <= mtu then left else (mtu - hdr) / 8 * 8
  }

  /** The header of a fragment: only its length, offset and MF flag are its own. */
  function FragHead(ip: Ip, offset: nat, n: nat, mf: bool): Ip
    requires offset < 0x1_0000 && n + ip.HdrLen() < 0x1_0000
  {
    ip.(length := n + ip.HdrLen(), offset := offset, mf := mf)
  }

  /** The fragments the loop of `ip_route` makes of `data[at..]`, the header's offset being `base`. */
  function FragmentFrom(ip: Ip, base: nat, data: Data, at: nat, mtu: nat): seq<Datagram>
    requires at <= |data| && mtu >= ip.HdrLen() + 8
    requires base + |data| < 0x1_0000 && |data| + ip.HdrLen() < 0x1_0000
    decreases |data| - at
  {
    if at == |data| then []
    else
      var left := |data| - at;
      var n := FragSize(left, ip.HdrLen(), mtu);
      [Datagram(FragHead(ip, base + at, n, left > n || ip.mf), data[at..at + n])]
        + FragmentFrom(ip, base, data, at + n, mtu)
  }

  /** A fragment is not empty, fits, and is a multiple of eight octets unless it is the last. */
  lemma SizeFits(left: nat, hdr: nat, mtu: nat)
    requires left > 0 && mtu >= hdr + 8
    ensures var n := FragSize(left, hdr, mtu); 0 < n <= left && n + hdr <= mtu && (n < left ==> n % 8 == 0)
  {
  }

  /** One pass of the loop: a piece of `n` octets, then the rest. */
  lemma FirstFragment(ip: Ip, base: nat, data: Data, at: nat, mtu: nat, n: nat)
    requires at < |data| && mtu >= ip.HdrLen() + 8 && base + |data| < 0x1_0000 && |data| + ip.HdrLen() < 0x1_0000
    requires n == FragSize(|data| - at, ip.HdrLen(), mtu)
    ensures 0 < n <= |data| - at && n + ip.HdrLen() <= mtu
    ensures FragmentFrom(ip, base, data, at, mtu) ==
              [Datagram(FragHead(ip, base + at, n, at + n < |data| || ip.mf), data[at..at + n])]
                + FragmentFrom(ip, base, data, at + n, mtu)
  {
    SizeFits(|data| - at, ip.HdrLen(), mtu);
  }

  /** Size and MF flag of the next fragment. */
  method Choose(length: nat, iplen: nat, mtu: nat, mfFlag: bool) returns (fragsize: nat, mf: bool)
    requires length > 0 && mtu >= iplen + 8
    ensures fragsize == FragSize(length, iplen, mtu) && mf == (fragsize < length || mfFlag)
  {
    SizeFits(length, iplen, mtu);
    if length + iplen <= mtu {
      fragsize, mf := length, mfFlag;
    } else {
      fragsize, mf := (mtu - iplen) / 8 * 8, true;
    }
  }

  /** The loop has the fragments of `data[..at]`; the next one takes it on to `at + n`. */
  lemma NextFragment(ip: Ip, data: Data, at: nat, mtu: nat, out: seq<Datagram>, f: Datagram, n: nat)
    requires at < |data| && mtu >= ip.HdrLen() + 8 && ip.offset + |data| < 0x1_0000
    requires |data| + ip.HdrLen() < 0x1_0000 && n == FragSize(|data| - at, ip.HdrLen(), mtu) && n <= |data| - at
    requires f == Datagram(FragHead(ip, ip.offset + at, n, at + n < |data| || ip.mf), data[at..at + n])
    ensures out + [f] + FragmentFrom(ip, ip.offset, data, at + n, mtu) ==
            out + FragmentFrom(ip, ip.offset, data, at, mtu)
  {
    FirstFragment(ip, ip.offset, data, at, mtu, n);
    Assoc(out, [f], FragmentFrom(ip, ip.offset, data, at + n, mtu));
  }

  /**
   The fragmentation loop of `ip_route`: `data` is the data portion of a datagram that does
   not fit. Each pass duplicates the next piece and queues it under an adjusted header.
   */
  method Fragment(ip: Ip, data: Data, mtu: nat) returns (out: seq<Datagram>)
    requires mtu >= ip.HdrLen() + 8
    requires |data| + ip.HdrLen() < 0x1_0000 && ip.offset + |data| < 0x1_0000
    ensures out == FragmentFrom(ip, ip.offset, data, 0, mtu)
  {
    var iplen, start, mfFlag := ip.HdrLen(), ip.offset, ip.mf;
    var offset := start;
    var length := |data|;
    ghost var at := 0;
    out := [];
    while length != 0
      invariant 0 <= at <= |data| && length == |data| - at && offset == start + at
      invariant out + FragmentFrom(ip, ip.offset, data, at, mtu) == FragmentFrom(ip, ip.offset, data, 0, mtu)
      decreases length
    {
      var fragsize, mf := Choose(length, iplen, mtu, mfFlag);
      var f := Datagram(FragHead(ip, offset, fragsize, mf), data[offset - start..offset - start + fragsize]);
      NextFragment(ip, data, at, mtu, out, f, fragsize);
      at := at + fragsize;
      out := out + [f];
      offset := offset + fragsize;
      length := length - fragsize;
    }
  }
}
