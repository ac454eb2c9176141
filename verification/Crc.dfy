/** The CRC-16 frame check sequence (crc.c, crc.h) of appendix C of RFC 1662. */
module Crc {
  import opened Bytes

  const FCS_START: bv16 := 0xffff
  const FCS_FINAL: bv16 := 0xf0b8

  /** `Fcstab`, sixteen entries to a row. */
  const FCSTAB: seq<seq<bv16>> := [
    [0x0000, 0x1189, 0x2312, 0x329b, 0x4624, 0x57ad, 0x6536, 0x74bf,
     0x8c48, 0x9dc1, 0xaf5a, 0xbed3, 0xca6c, 0xdbe5, 0xe97e, 0xf8f7],
    [0x1081, 0x0108, 0x3393, 0x221a, 0x56a5, 0x472c, 0x75b7, 0x643e,
     0x9cc9, 0x8d40, 0xbfdb, 0xae52, 0xdaed, 0xcb64, 0xf9ff, 0xe876],
    [0x2102, 0x308b, 0x0210, 0x1399, 0x6726, 0x76af, 0x4434, 0x55bd,
     0xad4a, 0xbcc3, 0x8e58, 0x9fd1, 0xeb6e, 0xfae7, 0xc87c, 0xd9f5],
    [0x3183, 0x200a, 0x1291, 0x0318, 0x77a7, 0x662e, 0x54b5, 0x453c,
     0xbdcb, 0xac42, 0x9ed9, 0x8f50, 0xfbef, 0xea66, 0xd8fd, 0xc974],
    [0x4204, 0x538d, 0x6116, 0x709f, 0x0420, 0x15a9, 0x2732, 0x36bb,
     0xce4c, 0xdfc5, 0xed5e, 0xfcd7, 0x8868, 0x99e1, 0xab7a, 0xbaf3],
    [0x5285, 0x430c, 0x7197, 0x601e, 0x14a1, 0x0528, 0x37b3, 0x263a,
     0xdecd, 0xcf44, 0xfddf, 0xec56, 0x98e9, 0x8960, 0xbbfb, 0xaa72],
    [0x6306, 0x728f, 0x4014, 0x519d, 0x2522, 0x34ab, 0x0630, 0x17b9,
     0xef4e, 0xfec7, 0xcc5c, 0xddd5, 0xa96a, 0xb8e3, 0x8a78, 0x9bf1],
    [0x7387, 0x620e, 0x5095, 0x411c, 0x35a3, 0x242a, 0x16b1, 0x0738,
     0xffcf, 0xee46, 0xdcdd, 0xcd54, 0xb9eb, 0xa862, 0x9af9, 0x8b70],
    [0x8408, 0x9581, 0xa71a, 0xb693, 0xc22c, 0xd3a5, 0xe13e, 0xf0b7,
     0x0840, 0x19c9, 0x2b52, 0x3adb, 0x4e64, 0x5fed, 0x6d76, 0x7cff],
    [0x9489, 0x8500, 0xb79b, 0xa612, 0xd2ad, 0xc324, 0xf1bf, 0xe036,
     0x18c1, 0x0948, 0x3bd3, 0x2a5a, 0x5ee5, 0x4f6c, 0x7df7, 0x6c7e],
    [0xa50a, 0xb483, 0x8618, 0x9791, 0xe32e, 0xf2a7, 0xc03c, 0xd1b5,
     0x2942, 0x38cb, 0x0a50, 0x1bd9, 0x6f66, 0x7eef, 0x4c74, 0x5dfd],
    [0xb58b, 0xa402, 0x9699, 0x8710, 0xf3af, 0xe226, 0xd0bd, 0xc134,
     0x39c3, 0x284a, 0x1ad1, 0x0b58, 0x7fe7, 0x6e6e, 0x5cf5, 0x4d7c],
    [0xc60c, 0xd785, 0xe51e, 0xf497, 0x8028, 0x91a1, 0xa33a, 0xb2b3,
     0x4a44, 0x5bcd, 0x6956, 0x78df, 0x0c60, 0x1de9, 0x2f72, 0x3efb],
    [0xd68d, 0xc704, 0xf59f, 0xe416, 0x90a9, 0x8120, 0xb3bb, 0xa232,
     0x5ac5, 0x4b4c, 0x79d7, 0x685e, 0x1ce1, 0x0d68, 0x3ff3, 0x2e7a],
    [0xe70e, 0xf687, 0xc41c, 0xd595, 0xa12a, 0xb0a3, 0x8238, 0x93b1,
     0x6b46, 0x7acf, 0x4854, 0x59dd, 0x2d62, 0x3ceb, 0x0e70, 0x1ff9],
    [0xf78f, 0xe606, 0xd49d, 0xc514, 0xb1ab, 0xa022, 0x92b9, 0x8330,
     0x7bc7, 0x6a4e, 0x58d5, 0x495c, 0x3de3, 0x2c6a, 0x1ef1, 0x0f78]
  ]

  /** One octet into the frame check sequence: eight steps of the shift register. */
  function Fcs(fcs: bv16, c: octet): bv16 { Shift8(fcs ^ (c as bv16)) }

  function FcsOver(fcs: bv16, s: Octets): bv16
    decreases |s|
  {
    if s == [] then fcs else FcsOver(Fcs(fcs, s[0]), s[1..])
  }

  // The shift register the table stands for

  /** One step of division by the CCITT polynomial, least significant bit first. */
  function Shift(b: bv16): bv16 { (b >> 1) ^ (-(b & 1) & 0x8408) }

  function Shift4(b: bv16): bv16 { Shift(Shift(Shift(Shift(b)))) }

  function Shift8(b: bv16): bv16 { Shift4(Shift4(b)) }

  lemma Shift4Split(a: bv16)
    ensures Shift4(a) == (a >> 4) ^ Shift4(a & 15)
  {
  }

  lemma XorGlue(a: bv16, s: bv16)
    ensures ((a >> 4) ^ s) & 15 == (((a & 0xff) >> 4) ^ s) & 15
    ensures ((a >> 4) ^ s) >> 4 == (a >> 8) ^ ((((a & 0xff) >> 4) ^ s) >> 4)
  {
  }

  lemma Xor3(p: bv16, q: bv16, r: bv16)
    ensures (p ^ q) ^ r == p ^ (q ^ r)
  {
  }

  ghost predicate Splits(f: bv16 -> bv16, a: bv16) { f(a) == (a >> 4) ^ f(a & 15) }

  lemma TwiceSplits(f: bv16 -> bv16, a: bv16)
    requires Splits(f, a) && Splits(f, a & 0xff) && Splits(f, f(a)) && Splits(f, f(a & 0xff))
    ensures f(f(a)) == (a >> 8) ^ f(f(a & 0xff))
  {
    var low := a & 0xff;
    assert low & 15 == a & 15;
    var s := f(a & 15);
    XorGlue(a, s);
    Xor3(a >> 8, f(low) >> 4, f(f(low) & 15));
  }

  /** The high octet only moves down. */
  lemma Shift8Split(a: bv16)
    ensures Shift8(a) == (a >> 8) ^ Shift8(a & 0xff)
  {
    forall x ensures Splits(Shift4, x) {
      Shift4Split(x);
    }
    TwiceSplits(Shift4, a);
  }

  /** An octet can be told from the high octet it leads to. */
  lemma Shift8Top(i: bv16, j: bv16)
    requires i < 256 && j < 256 && Shift8(i) >> 8 == Shift8(j) >> 8
    ensures i == j
  {
  }

  lemma Shift8Injective(a: bv16, b: bv16)
    requires Shift8(a) == Shift8(b)
    ensures a == b
  {
  }

  // The table

  /** A row of the table as it should be: the sixteen octets from `at`, each through `f`. */
  function Row(f: bv16 -> bv16, at: bv16): seq<bv16> {
    [f(at), f(at + 1), f(at + 2), f(at + 3), f(at + 4), f(at + 5), f(at + 6), f(at + 7),
     f(at + 8), f(at + 9), f(at + 10), f(at + 11), f(at + 12), f(at + 13), f(at + 14), f(at + 15)]
  }

  lemma Rows0()
    ensures |FCSTAB| == 16 && FCSTAB[0] == Row(Shift8, 0) && FCSTAB[1] == Row(Shift8, 16)
  {
  }

  lemma Rows1Low()
    ensures |FCSTAB| == 16 && FCSTAB[2] == Row(Shift8, 32)
  {
  }

  lemma Rows1High()
    ensures |FCSTAB| == 16 && FCSTAB[3] == Row(Shift8, 48)
  {
  }

  lemma Rows2()
    ensures |FCSTAB| == 16 && FCSTAB[4] == Row(Shift8, 64) && FCSTAB[5] == Row(Shift8, 80)
  {
  }

  lemma Rows3()
    ensures |FCSTAB| == 16 && FCSTAB[6] == Row(Shift8, 96) && FCSTAB[7] == Row(Shift8, 112)
  {
  }

  lemma Rows4()
    ensures |FCSTAB| == 16 && FCSTAB[8] == Row(Shift8, 128) && FCSTAB[9] == Row(Shift8, 144)
  {
  }

  lemma Rows5()
    ensures |FCSTAB| == 16 && FCSTAB[10] == Row(Shift8, 160) && FCSTAB[11] == Row(Shift8, 176)
  {
  }

  lemma Rows6()
    ensures |FCSTAB| == 16 && FCSTAB[12] == Row(Shift8, 192) && FCSTAB[13] == Row(Shift8, 208)
  {
  }

  lemma Rows7()
    ensures |FCSTAB| == 16 && FCSTAB[14] == Row(Shift8, 224) && FCSTAB[15] == Row(Shift8, 240)
  {
  }

  /** A number below sixteen, as the integer it indexes with. */
  lemma Nibble(lo: bv16) returns (k: nat)
    requires lo < 16
    ensures k < 16 && k as bv16 == lo && lo as int == k
  {
    if lo == 0 { k := 0; }
    else if lo == 1 { k := 1; }
    else if lo == 2 { k := 2; }
    else if lo == 3 { k := 3; }
    else if lo == 4 { k := 4; }
    else if lo == 5 { k := 5; }
    else if lo == 6 { k := 6; }
    else if lo == 7 { k := 7; }
    else if lo == 8 { k := 8; }
    else if lo == 9 { k := 9; }
    else if lo == 10 { k := 10; }
    else if lo == 11 { k := 11; }
    else if lo == 12 { k := 12; }
    else if lo == 13 { k := 13; }
    else if lo == 14 { k := 14; }
    else { k := 15; }
  }

  predicate TableOk(f: bv16 -> bv16) {
    && |FCSTAB| == 16
    && FCSTAB[0] == Row(f, 0) && FCSTAB[1] == Row(f, 16) && FCSTAB[2] == Row(f, 32) && FCSTAB[3] == Row(f, 48)
    && FCSTAB[4] == Row(f, 64) && FCSTAB[5] == Row(f, 80) && FCSTAB[6] == Row(f, 96) && FCSTAB[7] == Row(f, 112)
    && FCSTAB[8] == Row(f, 128) && FCSTAB[9] == Row(f, 144) && FCSTAB[10] == Row(f, 160) && FCSTAB[11] == Row(f, 176)
    && FCSTAB[12] == Row(f, 192) && FCSTAB[13] == Row(f, 208) && FCSTAB[14] == Row(f, 224) && FCSTAB[15] == Row(f, 240)
  }

  lemma TableIs()
    ensures TableOk(Shift8)
  {
    Rows0();
    Rows1Low();
    Rows1High();
    Rows2();
    Rows3();
    Rows4();
    Rows5();
    Rows6();
    Rows7();
  }

  lemma PickRow(f: bv16 -> bv16, h: nat, hi: bv16)
    requires TableOk(f) && hi < 16 && hi as int == h
    ensures h < 16 && FCSTAB[h] == Row(f, hi << 4)
  {
    var _ := Nibble(hi);
  }

  lemma InRow(f: bv16 -> bv16, at: bv16, lo: bv16, k: nat)
    requires lo < 16 && lo as int == k
    ensures k < 16 && Row(f, at)[k] == f(at + lo)
  {
    var _ := Nibble(lo);
  }

  lemma TableAt(f: bv16 -> bv16, i: bv16, h: nat, k: nat)
    requires TableOk(f) && i < 256 && (i >> 4) as int == h && (i & 15) as int == k
    ensures h < 16 && |FCSTAB[h]| == 16 && k < 16 && FCSTAB[h][k] == f(i)
  {
    PickRow(f, h, i >> 4);
    InRow(f, (i >> 4) << 4, i & 15, k);
    assert ((i >> 4) << 4) + (i & 15) == i;
  }

  lemma Entry(i: bv16, h: nat, k: nat)
    requires i < 256 && (i >> 4) as int == h && (i & 15) as int == k
    ensures h < 16 && |FCSTAB[h]| == 16 && k < 16 && FCSTAB[h][k] == Shift8(i)
  {
    TableIs();
    TableAt(Shift8, i, h, k);
  }

  /** `Fcstab[i]` */
  method Lookup(i: bv16) returns (e: bv16)
    requires i < 256
    ensures e == Shift8(i)
  {
    var h, k := (i >> 4) as int, (i & 15) as int;
    Entry(i, h, k);
    e := FCSTAB[h][k];
  }

  lemma HighOctet(f: bv16 -> bv16, fcs: bv16, c: octet)
    requires var x := fcs ^ (c as bv16); f(x) == (x >> 8) ^ f(x & 0xff)
    ensures var x := fcs ^ (c as bv16); f(x) == (fcs >> 8) ^ f(x & 0xff)
  {
    assert (fcs ^ (c as bv16)) >> 8 == fcs >> 8;
  }

  lemma FcsSplit(fcs: bv16, c: octet)
    ensures Fcs(fcs, c) == (fcs >> 8) ^ Shift8((fcs ^ (c as bv16)) & 0xff)
  {
    Shift8Split(fcs ^ (c as bv16));
    HighOctet(Shift8, fcs, c);
  }

  /** The macro `FCS`: the table does the eight steps at once. */
  method FcsStep(fcs: bv16, c: octet) returns (r: bv16)
    ensures r == Fcs(fcs, c)
  {
    var e := Lookup((fcs ^ (c as bv16)) & 0xff);
    r := (fcs >> 8) ^ e;
    FcsSplit(fcs, c);
  }

  // What the check sequence is for

  lemma {:induction false} FcsAppend(fcs: bv16, s: Octets, t: Octets)
    ensures FcsOver(fcs, s + t) == FcsOver(FcsOver(fcs, s), t)
    decreases |s|
  {
    if s == [] {
      assert s + t == t;
    } else {
      assert (s + t)[1..] == s[1..] + t;
      FcsAppend(Fcs(fcs, s[0]), s[1..], t);
    }
  }

  /** The complemented check sequence, low octet first. */
  function Trailer(fcs: bv16): (t: Octets)
    ensures |t| == 2
  {
    var g := fcs ^ 0xffff;
    [(g & 0xff) as octet, (g >> 8) as octet]
  }

  lemma FcsTwo(fcs: bv16, a: octet, b: octet)
    ensures FcsOver(fcs, [a, b]) == Fcs(Fcs(fcs, a), b)
  {
    var g := Fcs(fcs, a);
    assert [a, b][1..] == [b] && [b][1..] == [];
    assert FcsOver(g, [b]) == FcsOver(Fcs(g, b), []);
  }

  lemma ResidueBits(f: bv16)
    ensures var g := f ^ 0xffff; Shift8(Shift8(f ^ (g & 0xff)) ^ (g >> 8)) == FCS_FINAL
  {
  }

  /** Whatever came before, the complemented check sequence leads to the one final value. */
  lemma Residue(fcs: bv16)
    ensures FcsOver(fcs, Trailer(fcs)) == FCS_FINAL
  {
    var t := Trailer(fcs);
    FcsTwo(fcs, t[0], t[1]);
    ResidueBits(fcs);
  }

  /** A frame with its trailer checks. */
  lemma Checks(s: Octets)
    ensures FcsOver(FCS_START, s + Trailer(FcsOver(FCS_START, s))) == FCS_FINAL
  {
    Residue(FcsOver(FCS_START, s));
    FcsAppend(FCS_START, s, Trailer(FcsOver(FCS_START, s)));
  }

  lemma XorCancel(a: bv16, b: bv16, f: bv16)
    ensures f ^ a == f ^ b ==> a == b
    ensures a ^ f == b ^ f ==> a == b
  {
  }

  /** One octet takes different states to different states. */
  lemma FcsInjective(f: bv16, g: bv16, c: octet)
    requires Fcs(f, c) == Fcs(g, c)
    ensures f == g
  {
    Shift8Injective(f ^ (c as bv16), g ^ (c as bv16));
    XorCancel(f, g, c as bv16);
  }

  lemma {:induction false} FcsOverInjective(f: bv16, g: bv16, s: Octets)
    requires FcsOver(f, s) == FcsOver(g, s)
    ensures f == g
    decreases |s|
  {
    if s != [] {
      FcsOverInjective(Fcs(f, s[0]), Fcs(g, s[0]), s[1..]);
      FcsInjective(f, g, s[0]);
    }
  }

  lemma HighCancel(f: bv16, p: bv16, q: bv16)
    requires ((f >> 8) ^ p) >> 8 == ((f >> 8) ^ q) >> 8
    ensures p >> 8 == q >> 8
  {
  }

  lemma FirstTop(f: bv16, a: octet, c: octet)
    requires Fcs(f, a) >> 8 == Fcs(f, c) >> 8
    ensures Shift8((f ^ (a as bv16)) & 0xff) >> 8 == Shift8((f ^ (c as bv16)) & 0xff) >> 8
  {
    FcsSplit(f, a);
    FcsSplit(f, c);
    HighCancel(f, Shift8((f ^ (a as bv16)) & 0xff), Shift8((f ^ (c as bv16)) & 0xff));
  }

  lemma FirstSame(f: bv16, a: octet, c: octet)
    requires Shift8((f ^ (a as bv16)) & 0xff) >> 8 == Shift8((f ^ (c as bv16)) & 0xff) >> 8
    ensures a == c
  {
    Shift8Top((f ^ (a as bv16)) & 0xff, (f ^ (c as bv16)) & 0xff);
    SameOctet(f, a, c);
  }

  lemma SameOctet(f: bv16, a: octet, c: octet)
    ensures (f ^ (a as bv16)) & 0xff == (f ^ (c as bv16)) & 0xff ==> a == c
  {
  }

  lemma LastBits(x: bv16, y: bv16, b: octet, d: octet)
    requires x ^ (b as bv16) == y ^ (d as bv16)
    ensures x >> 8 == y >> 8 && (x == y ==> b == d)
  {
  }

  lemma LastSame(x: bv16, y: bv16, b: octet, d: octet)
    requires Fcs(x, b) == Fcs(y, d)
    ensures x >> 8 == y >> 8 && (x == y ==> b == d)
  {
    Shift8Injective(x ^ (b as bv16), y ^ (d as bv16));
    LastBits(x, y, b, d);
  }

  /** From one state, two octets can be told from the state they lead to. */
  lemma PairInjective(f: bv16, a: octet, b: octet, c: octet, d: octet)
    requires Fcs(Fcs(f, a), b) == Fcs(Fcs(f, c), d)
    ensures a == c && b == d
  {
    LastSame(Fcs(f, a), Fcs(f, c), b, d);
    FirstTop(f, a, c);
    FirstSame(f, a, c);
  }

  /** A good frame damaged within two adjacent octets is never good. */
  lemma BurstDetected(pre: Octets, a: octet, b: octet, c: octet, d: octet, post: Octets)
    requires FcsOver(FCS_START, pre + [a, b] + post) == FCS_FINAL && (a != c || b != d)
    ensures FcsOver(FCS_START, pre + [c, d] + post) != FCS_FINAL
  {
    var f := FcsOver(FCS_START, pre);
    PairOver(pre, a, b, post);
    PairOver(pre, c, d, post);
    if FcsOver(FCS_START, pre + [c, d] + post) == FCS_FINAL {
      FcsOverInjective(Fcs(Fcs(f, a), b), Fcs(Fcs(f, c), d), post);
      PairInjective(f, a, b, c, d);
    }
  }

  lemma PairOver(pre: Octets, a: octet, b: octet, post: Octets)
    ensures FcsOver(FCS_START, pre + [a, b] + post) == FcsOver(Fcs(Fcs(FcsOver(FCS_START, pre), a), b), post)
  {
    FcsAppend(FCS_START, pre + [a, b], post);
    FcsAppend(FCS_START, pre, [a, b]);
    FcsTwo(FcsOver(FCS_START, pre), a, b);
  }

  /** The loop of `crc_check` and `crc_gen`. */
  method CrcOf(buf: array<octet>, len: nat) returns (crc: bv16)
    requires len <= buf.Length
    ensures crc == FcsOver(FCS_START, buf[..len])
  {
    crc := FCS_START;
    var i := 0;
    while i < len
      invariant i <= len && crc == FcsOver(FCS_START, buf[..i])
    {
      crc := FcsNext(buf[..i], crc, buf[i]);
      assert buf[..i] + [buf[i]] == buf[..i + 1];
      i := i + 1;
    }
  }

  method FcsNext(ghost s: Octets, fcs: bv16, c: octet) returns (r: bv16)
    requires fcs == FcsOver(FCS_START, s)
    ensures r == FcsOver(FCS_START, s + [c])
  {
    r := FcsStep(fcs, c);
    FcsAppend(FCS_START, s, [c]);
    assert [c][1..] == [];
  }

  /** `crc_check` */
  method CrcCheck(buf: array<octet>, len: nat) returns (r: int)
    requires len <= buf.Length
    ensures r == if FcsOver(FCS_START, buf[..len]) == FCS_FINAL then 0 else -1
  {
    var crc := CrcOf(buf, len);
    r := if crc == FCS_FINAL then 0 else -1;
  }

  /** `crc_gen`: the last two of `len` octets are overwritten so that the whole checks. */
  method CrcGen(buf: array<octet>, len: nat)
    requires 2 <= len <= buf.Length
    modifies buf
    ensures buf[..len - 2] == old(buf[..len - 2]) && buf[len..] == old(buf[len..])
    ensures FcsOver(FCS_START, buf[..len]) == FCS_FINAL
  {
    var crc := CrcOf(buf, len - 2);
    ghost var head := buf[..len - 2];
    Checks(head);
    var t := Trailer(crc);
    buf[len - 2], buf[len - 1] := t[0], t[1];
    assert buf[..len] == head + t;
  }
}
