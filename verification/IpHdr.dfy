module IpHdr {
  // The IP header on the wire (iphdr.c), and its incrementally patched checksum (RFC 1141).

  import opened Bytes
  import opened Ip
  import opened Cksum
  import opened Lists

  // Sixteen and thirty-two bit fields in network order (misc.c)

  function Put16(x: uint16): Data { [x / 256, x % 256] }

  function Get16(d: Data, i: nat): uint16
    requires i + 1 < |d|
  {
    256 * (d[i] as int) + d[i + 1]
  }

  function Put32(x: uint32): Data { Put16(x / 0x1_0000) + Put16(x % 0x1_0000) }

  function Get32(d: Data, i: nat): uint32
    requires i + 3 < |d|
  {
    0x1_0000 * (Get16(d, i) as int) + Get16(d, i + 2)
  }

  function Bit(b: bool): int { if b then 1 else 0 }

  function FlagsAndOffset(ip: Ip): uint16 {
    ip.offset / 8 + 0x8000 * Bit(ip.congest) + 0x4000 * Bit(ip.df) + 0x2000 * Bit(ip.mf)
  }

  /** The eight octets before the TTL, and those after the checksum. */
  function Front(ip: Ip): Data {
    [ip.version % 16 * 16 + ip.HdrLen() / 4, ip.tos] + Put16(ip.length) + Put16(ip.id) + Put16(FlagsAndOffset(ip))
  }

  function Back(ip: Ip): Data { Put32(ip.source) + Put32(ip.dest) + ip.options }

  /** The header with `ck` in the checksum field. */
  function Encode(ip: Ip, ck: uint16): Data {
    Front(ip) + ([ip.ttl, ip.protocol] + Put16(ck)) + Back(ip)
  }

  function HeaderSum(d: Data): uint16 {
    FoldMeans(WordSum(d));
    0xffff - Fold(WordSum(d))
  }

  /** What `cksum` makes of a header whose checksum field was filled in correctly. */
  predicate Verifies(d: Data) { HeaderSum(d) == 0 }

  /** `htonip`, for `IP_CS_OLD` (`saved`) and `IP_CS_NEW`. */
  function Hton(ip: Ip, saved: bool): Data {
    if saved then Encode(ip, ip.checksum) else Encode(ip, HeaderSum(Encode(ip, 0)))
  }

  /** `cksum` of a header that lies in one buffer. */
  method HeaderChecksum(hdr: Data, oddAddress: bool) returns (ck: uint16)
    requires 0 < |hdr| < 0x1_0000
    ensures ck == HeaderSum(hdr)
  {
    var chain := [Seg(hdr, oddAddress)];
    assert chain[1..] == [] && Flat(chain) == hdr && hdr[..|hdr|] == hdr;
    ck := Checksum(None, chain, |hdr|);
  }

  method HtonIp(ip: Ip, saved: bool, oddAddress: bool) returns (hdr: Data)
    ensures hdr == Hton(ip, saved)
  {
    var hdrLen := ip.HdrLen();
    var flOffs := ip.offset / 8;
    if ip.congest {
      flOffs := flOffs + 0x8000;
    }
    if ip.df {
      flOffs := flOffs + 0x4000;
    }
    if ip.mf {
      flOffs := flOffs + 0x2000;
    }
    var front := [ip.version % 16 * 16 + hdrLen / 4, ip.tos] + Put16(ip.length) + Put16(ip.id) + Put16(flOffs);
    var back := Put32(ip.source) + Put32(ip.dest) + ip.options;
    if saved {
      hdr := front + ([ip.ttl, ip.protocol] + Put16(ip.checksum)) + back;
    } else {
      hdr := front + ([ip.ttl, ip.protocol] + Put16(0)) + back;
      var ck := HeaderChecksum(hdr, oddAddress);
      hdr := front + ([ip.ttl, ip.protocol] + Put16(ck)) + back;
    }
  }

  // Decoding

  /** `ntohip`: the header and what follows it, or nothing when it is cut short or too short. */
  function Ntoh(d: Data): Option<Datagram> {
    if |d| < IPLEN then None
    else
      var ihl := d[0] % 16 * 4;
      if ihl < IPLEN || |d| < ihl then None
      else Some(Datagram(Header(d, d[IPLEN..ihl]), d[ihl..]))
  }

  function Header(d: Data, options: Options): Ip
    requires |d| >= IPLEN
  {
    var fl := Get16(d, 6);
    Ip(Get32(d, 12), Get32(d, 16), Get16(d, 2), Get16(d, 4), fl % 0x2000 * 8, Get16(d, 10),
       fl / 0x8000 == 1, fl / 0x4000 % 2 == 1, fl / 0x2000 % 2 == 1,
       d[0] / 16, d[1], d[8], d[9], options)
  }

  /** Headers the wire format can carry: a four-bit version, whole-word options, offset in units of eight. */
  predicate Legal(ip: Ip) { ip.version < 16 && |ip.options| % 4 == 0 && ip.offset % 8 == 0 }

  lemma PutGet16(x: uint16)
    ensures 256 * (x / 256) + x % 256 == x
  {
  }

  lemma FlagsRoundTrip(q: nat, c: bool, d: bool, m: bool)
    requires q < 0x2000
    ensures var fl := q + 0x8000 * Bit(c) + 0x4000 * Bit(d) + 0x2000 * Bit(m);
            && fl % 0x2000 == q && (fl / 0x8000 == 1 <==> c)
            && (fl / 0x4000 % 2 == 1 <==> d) && (fl / 0x2000 % 2 == 1 <==> m)
  {
    var fl := q + 0x8000 * Bit(c) + 0x4000 * Bit(d) + 0x2000 * Bit(m);
    assert fl / 0x2000 == 4 * Bit(c) + 2 * Bit(d) + Bit(m);
    assert fl / 0x4000 == 2 * Bit(c) + Bit(d);
  }

  /** The octets of an encoded header, by position. */
  lemma EncodeAt(ip: Ip, ck: uint16, rest: Data)
    ensures var d := Encode(ip, ck) + rest;
            && |Encode(ip, ck)| == ip.HdrLen()
            && d[0] == ip.version % 16 * 16 + ip.HdrLen() / 4 && d[1] == ip.tos && d[8] == ip.ttl && d[9] == ip.protocol
            && Get16(d, 2) == ip.length && Get16(d, 4) == ip.id && Get16(d, 6) == FlagsAndOffset(ip)
            && Get16(d, 10) == ck && Get32(d, 12) == ip.source && Get32(d, 16) == ip.dest
            && d[IPLEN..ip.HdrLen()] == ip.options && d[ip.HdrLen()..] == rest
  {
    var d := Encode(ip, ck) + rest;
    PutGet16(ip.length);
    PutGet16(ip.id);
    PutGet16(FlagsAndOffset(ip));
    PutGet16(ck);
    assert Get16(d, 12) == ip.source / 0x1_0000 && Get16(d, 14) == ip.source % 0x1_0000;
    assert Get16(d, 16) == ip.dest / 0x1_0000 && Get16(d, 18) == ip.dest % 0x1_0000;
  }

  /** `ntohip` undoes `htonip` for every legal header, whatever follows it. */
  lemma HeaderRoundTrip(ip: Ip, rest: Data)
    requires Legal(ip)
    ensures Ntoh(Hton(ip, true) + rest) == Some(Datagram(ip, rest))
  {
    EncodeAt(ip, ip.checksum, rest);
    FlagsRoundTrip(ip.offset / 8, ip.congest, ip.df, ip.mf);
    var n := ip.HdrLen() / 4;
    assert n < 16 && 4 * n == ip.HdrLen();
    assert (ip.version * 16 + n) % 16 == n && (ip.version * 16 + n) / 16 == ip.version;
  }

  // Verification

  /** The word sum of a header, with the fields a hop changes taken out. */
  function FixedSum(ip: Ip): nat { PosSum(Front(ip), false) + PosSum(Back(ip), false) + ip.protocol }

  lemma EncodeSum(ip: Ip, ck: uint16)
    ensures WordSum(Encode(ip, ck)) == FixedSum(ip) + 256 * (ip.ttl as int) + ck
  {
    var mid := [ip.ttl, ip.protocol] + Put16(ck);
    WordSumIsPosSum(Encode(ip, ck));
    PosSumConcat(Front(ip) + mid, Back(ip), false);
    PosSumConcat(Front(ip), mid, false);
    FourOctets(ip.ttl, ip.protocol, ck / 256, ck % 256);
    assert mid == [ip.ttl, ip.protocol, ck / 256, ck % 256];
    PutGet16(ck);
  }

  lemma FourOctets(a: byte, b: byte, c: byte, d: byte)
    ensures PosSum([a, b, c, d], false) == 256 * (a as int) + b + (256 * (c as int) + d)
  {
    Behead(a, [b, c, d]);
    Behead(b, [c, d]);
    Behead(c, [d]);
    assert [d][1..] == [] && PosSum([d], true) == d;
    assert [c] + [d] == [c, d] && [b] + [c, d] == [b, c, d] && [a] + [b, c, d] == [a, b, c, d];
    assert PosSum([c, d], false) == 256 * (c as int) + d;
    assert PosSum([b, c, d], true) == b + PosSum([c, d], false);
  }

  /** A header verifies when its word sum is a positive multiple of 65535. */
  lemma VerifiesWhen(d: Data)
    ensures Verifies(d) <==> Cong(WordSum(d), 0) && WordSum(d) > 0
  {
    var s := WordSum(d);
    FoldMeans(s);
    if Fold(s) == 65535 {
      CongBy(65535, 0, 1);
      CongTrans(s, Fold(s), 0);
    }
    if Cong(s, 0) && s > 0 {
      CongTrans(s, Fold(s), Fold(s)) by { CongBy(Fold(s), Fold(s), 0); }
      CongTrans(Fold(s), s, 0);
      var k :| Fold(s) - 0 == M(k);
    }
  }

  /** A header built with `IP_CS_NEW` verifies. */
  lemma NewVerifies(ip: Ip)
    ensures Verifies(Hton(ip, false))
  {
    var s0 := WordSum(Encode(ip, 0));
    var ck := HeaderSum(Encode(ip, 0));
    FoldMeans(s0);
    EncodeSum(ip, 0);
    EncodeSum(ip, ck);
    CongBy(ck, 65535 - Fold(s0), 0);
    CongAdd(s0, Fold(s0), ck, 65535 - Fold(s0));
    CongBy(65535, 0, 1);
    CongTrans(s0 + ck, 65535, 0);
    FoldAtMost(s0);
    VerifiesWhen(Encode(ip, ck));
  }

  lemma {:induction false} FoldAtMost(s: nat)
    ensures Fold(s) <= s
    decreases s
  {
    if s >= 0x1_0000 {
      FoldAtMost(s / 0x1_0000 + s % 0x1_0000);
    }
  }

  // One hop

  /** `ip.checksum += 0x100`, with the end-around carry the source adds by hand. */
  function Patch(ck: uint16): uint16 {
    var c := Wrap16(ck + 0x100);
    if c < 0x100 then c + 1 else c
  }

  function Decrement(ttl: byte): byte { if ttl == 0 then 255 else ttl - 1 }

  /** The header as `ip_route` leaves it for `q_pkt`. */
  function Forwarded(ip: Ip): Ip { ip.(checksum := Patch(ip.checksum), ttl := Decrement(ip.ttl)) }

  lemma NotBoth(t: int)
    requires Cong(t, 1)
    ensures !Cong(t, 0)
  {
    var j :| t - 1 == M(j);
    assert forall k :: t - 0 != M(k);
  }

  /**
   A header that verifies still verifies after the patched checksum, the TTL decrement and the
   `IP_CS_OLD` rebuild if and only if its TTL was not zero: then the decrement wraps to 255.
   */
  lemma HopVerifies(ip: Ip)
    requires Verifies(Hton(ip, true))
    ensures Verifies(Hton(Forwarded(ip), true)) <==> ip.ttl != 0
  {
    var g := Forwarded(ip);
    EncodeSum(ip, ip.checksum);
    EncodeSum(g, g.checksum);
    assert Front(g) == Front(ip) && Back(g) == Back(ip) && FixedSum(g) == FixedSum(ip);
    var s, t := WordSum(Hton(ip, true)), WordSum(Hton(g, true));
    VerifiesWhen(Hton(ip, true));
    VerifiesWhen(Hton(g, true));
    var k := if ip.checksum < 0xff00 then 0 else -1;
    if ip.ttl != 0 {
      CongBy(t, s, k);
      CongTrans(t, s, 0);
      assert g.checksum > 0;
    } else {
      CongBy(t, s + 1, k + 1);
      CongAdd(s, 0, 1, 1) by { CongBy(1, 1, 0); }
      CongTrans(t, s + 1, 1);
      NotBoth(t);
    }
  }

  /** The header after `n` hops. */
  function AfterHops(ip: Ip, n: nat): Ip
    decreases n
  {
    if n == 0 then ip else AfterHops(Forwarded(ip), n - 1)
  }

  lemma {:induction false} HeadersAfter(ip: Ip, n: nat)
    requires Legal(ip) && n < ip.ttl && Verifies(Hton(ip, true))
    ensures var g := AfterHops(ip, n);
            g == ip.(ttl := ip.ttl - n, checksum := g.checksum) && Verifies(Hton(g, true))
    decreases n
  {
    if n > 0 {
      HopVerifies(ip);
      HeadersAfter(Forwarded(ip), n - 1);
    }
  }

  lemma {:induction false} NextHeader(ip: Ip, k: nat)
    ensures AfterHops(ip, k + 1) == Forwarded(AfterHops(ip, k))
    decreases k
  {
    if k > 0 {
      NextHeader(Forwarded(ip), k - 1);
    }
  }

  /** The starting point: what `ip_send` puts on the wire is the `IP_CS_OLD` form of itself. */
  lemma SendVerifies(ip: Ip)
    ensures var g := ip.(checksum := HeaderSum(Encode(ip, 0)));
            Hton(ip, false) == Hton(g, true) && Verifies(Hton(g, true))
  {
    NewVerifies(ip);
  }
}
