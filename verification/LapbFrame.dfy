module LapbFrame {
  // LAPB frames (AX.25 version 2.0, section 2.3) and their one-octet control field.

  import opened Bytes

  /** Sense carried by the address field: the source's `LAPB_UNKNOWN/COMMAND/RESPONSE`. */
  datatype CmdRsp = Unknown | Command | Response

  datatype SKind = RR | RNR | REJ | SOther

  datatype UKind = SABM | DISC | DM | UA | FRMR | UOther(bits: byte)

  /** A decoded control field; sequence numbers are modulo 8. */
  datatype Ctl =
    | I(ns: nat, nr: nat, pf: bool)
    | S(skind: SKind, nr: nat, pf: bool)
    | U(ukind: UKind, pf: bool)

  datatype Frame = Frame(cmdrsp: CmdRsp, ctl: Ctl, info: Data)

  const PF := 16

  ghost predicate Legal(c: Ctl) {
    match c
    case I(ns, nr, _) => ns < 8 && nr < 8
    case S(_, nr, _) => nr < 8
    case U(UOther(b), _) =>
      b % 4 == 3 && b / 16 % 2 == 0 && b != 0x2f && b != 0x43 && b != 0x0f && b != 0x63 && b != 0x87
    case U(_, _) => true
  }

  function SBits(k: SKind): byte {
    match k
    case RR => 0x01
    case RNR => 0x05
    case REJ => 0x09
    case SOther => 0x0d
  }

  function UBits(k: UKind): byte {
    match k
    case SABM => 0x2f
    case DISC => 0x43
    case DM => 0x0f
    case UA => 0x63
    case FRMR => 0x87
    case UOther(b) => b
  }

  function PfBit(pf: bool): byte { if pf then PF else 0 }

  /** The octet `lapb_output`, `tx_enq` and `sendctl` put on the wire. */
  function Encode(c: Ctl): byte
    requires Legal(c)
  {
    match c
    case I(ns, nr, pf) => 2 * ns + 32 * nr + PfBit(pf)
    case S(k, nr, pf) => SBits(k) + 32 * nr + PfBit(pf)
    case U(k, pf) => UBits(k) + PfBit(pf)
  }

  function UKindOf(bits: byte): UKind {
    if bits == 0x2f then SABM
    else if bits == 0x43 then DISC
    else if bits == 0x0f then DM
    else if bits == 0x63 then UA
    else if bits == 0x87 then FRMR
    else UOther(bits)
  }

  /** `ftype` and the field extraction at the head of `lapb_input`. */
  function Decode(b: byte): Ctl {
    var nr, pf, low := b / 32, b / 16 % 2 == 1, b % 16;
    if low % 2 == 0 then
      I(low / 2, nr, pf)
    else if low / 2 % 2 == 1 then
      U(UKindOf(b - PfBit(pf)), pf)
    else
      S(if low == 1 then RR else if low == 5 then RNR else if low == 9 then REJ else SOther, nr, pf)
  }

  /** An octet as the source cuts it: three bits, the P/F bit, four bits. */
  lemma Cut(h: int, p: int, l: int)
    requires 0 <= h < 8 && 0 <= p < 2 && 0 <= l < 16
    ensures var b := 32 * h + 16 * p + l;
            b / 32 == h && b / 16 % 2 == p && b % 16 == l && b % 4 == l % 4
  {
    var b := 32 * h + 16 * p + l;
    assert b / 16 == 2 * h + p;
    assert b % 4 == l % 4 by { assert b == 4 * (8 * h + 4 * p) + l; }
  }

  /** Every octet is a legal control field, and decoding it loses nothing. */
  lemma EncodeDecode(b: byte)
    ensures Legal(Decode(b)) && Encode(Decode(b)) == b
  {
    var h, p, l := b / 32, b / 16 % 2, b % 16;
    Cut(h, p, l);
    Cut(h, 0, l);
    assert b == 32 * h + 16 * p + l;
    if l % 2 == 0 {
    } else if l / 2 % 2 == 0 {
      assert l == 1 || l == 5 || l == 9 || l == 13;
    } else {
      assert b - PfBit(p == 1) == 32 * h + l;
    }
  }

  lemma DecodeU(u: byte, pf: bool)
    requires u % 4 == 3 && u / 16 % 2 == 0
    ensures u + PfBit(pf) < 256 && Decode(u + PfBit(pf)) == U(UKindOf(u), pf)
  {
    var h, l := u / 32, u % 16;
    assert u == 32 * h + l;
    Cut(h, 0, l);
    Cut(h, if pf then 1 else 0, l);
    assert l % 4 == 3;
    assert l == 3 || l == 7 || l == 11 || l == 15;
  }

  lemma DecodeI(ns: nat, nr: nat, pf: bool)
    requires ns < 8 && nr < 8
    ensures Decode(2 * ns + 32 * nr + PfBit(pf)) == I(ns, nr, pf)
  {
    Cut(nr, if pf then 1 else 0, 2 * ns);
  }

  lemma DecodeS(k: SKind, nr: nat, pf: bool)
    requires nr < 8
    ensures Decode(SBits(k) + 32 * nr + PfBit(pf)) == S(k, nr, pf)
  {
    Cut(nr, if pf then 1 else 0, SBits(k));
  }

  /** Every legal control field survives the wire. */
  lemma DecodeEncode(c: Ctl)
    requires Legal(c)
    ensures Decode(Encode(c)) == c
  {
    match c
    case I(ns, nr, pf) => DecodeI(ns, nr, pf);
    case S(k, nr, pf) => DecodeS(k, nr, pf);
    case U(k, pf) =>
      assert UBits(k) % 4 == 3 && UBits(k) / 16 % 2 == 0 && UKindOf(UBits(k)) == k;
      DecodeU(UBits(k), pf);
  }

  /** The source tests `control == RNR`, which sees a busy peer only when N(R) and P/F are zero. */
  lemma BusyTestIsPartial(b: byte)
    ensures b == SBits(RNR) <==> Decode(b) == S(RNR, 0, false)
  {
    EncodeDecode(b);
    DecodeEncode(S(RNR, 0, false));
  }
}
