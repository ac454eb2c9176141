module Cksum {
  // The Internet checksum over a chain of buffers (iphdr.c; RFC 1071, section 2).

  import opened Bytes
  import opened Ip
  import opened Lists

  // Ones-complement arithmetic

  function M(k: int): int { 65535 * k }

  ghost predicate Cong(a: int, b: int) { exists k :: a - b == M(k) }

  lemma CongBy(a: int, b: int, k: int)
    requires a - b == 65535 * k
    ensures Cong(a, b)
  {
    assert a - b == M(k);
  }

  lemma CongAdd(a: int, b: int, c: int, d: int)
    requires Cong(a, b) && Cong(c, d)
    ensures Cong(a + c, b + d)
  {
    var j :| a - b == M(j);
    var k :| c - d == M(k);
    CongBy(a + c, b + d, j + k);
  }

  lemma CongTrans(a: int, b: int, c: int)
    requires Cong(a, b) && Cong(b, c)
    ensures Cong(a, c) && Cong(b, a)
  {
    var j :| a - b == M(j);
    var k :| b - c == M(k);
    CongBy(a, c, j + k);
    CongBy(b, a, -j);
  }

  /** End-around carry: add the carries out of sixteen bits back in until there are none. */
  function Fold(s: nat): nat
    decreases s
  {
    if s < 0x1_0000 then s else Fold(s / 0x1_0000 + s % 0x1_0000)
  }

  lemma {:induction false} FoldMeans(s: nat)
    ensures Fold(s) < 0x1_0000 && Cong(s, Fold(s)) && (Fold(s) == 0 <==> s == 0)
    decreases s
  {
    if s < 0x1_0000 {
      CongBy(s, s, 0);
    } else {
      var h, l := s / 0x1_0000, s % 0x1_0000;
      assert s == 0x1_0000 * h + l;
      FoldMeans(h + l);
      CongBy(s, h + l, h);
      CongTrans(s, h + l, Fold(h + l));
    }
  }

  /** Two sums that agree modulo 65535, both zero or neither, fold to the same word. */
  lemma FoldUnique(a: nat, b: nat)
    requires Cong(a, b) && (a == 0 <==> b == 0)
    ensures Fold(a) == Fold(b)
  {
    FoldMeans(a);
    FoldMeans(b);
    CongTrans(a, Fold(a), Fold(a)) by { CongBy(Fold(a), Fold(a), 0); }
    CongTrans(Fold(a), a, b);
    CongTrans(Fold(a), b, Fold(b));
    var k :| Fold(a) - Fold(b) == M(k);
  }

  // Sums over octets

  /** The sum of the big-endian sixteen-bit words of `d`, an odd octet padded with zero: RFC 1071. */
  function WordSum(d: Data): nat {
    if d == [] then 0
    else if |d| == 1 then 256 * d[0]
    else 256 * d[0] + d[1] + WordSum(d[2..])
  }

  /** What an octet adds to a sum of words at an even or odd position. */
  function Weigh(odd: bool, x: byte): nat { if odd then x else 256 * x }

  /** The same sum octet by octet; `odd` tells whether `d` starts at an odd position. */
  function PosSum(d: Data, odd: bool): nat {
    if d == [] then 0 else Weigh(odd, d[0]) + PosSum(d[1..], !odd)
  }

  lemma {:induction false} WordSumIsPosSum(d: Data)
    ensures WordSum(d) == PosSum(d, false)
    decreases |d|
  {
    if |d| > 1 {
      WordSumIsPosSum(d[2..]);
      assert d[1..][1..] == d[2..];
      assert PosSum(d[1..], true) == d[1] + PosSum(d[2..], false);
    } else if |d| == 1 {
      assert d[1..] == [];
    }
  }

  predicate Flip(odd: bool, n: nat) { if n % 2 == 0 then odd else !odd }

  lemma {:induction false} PosSumConcat(a: Data, b: Data, odd: bool)
    ensures PosSum(a + b, odd) == PosSum(a, odd) + PosSum(b, Flip(odd, |a|))
    decreases |a|
  {
    if a == [] {
      assert a + b == b;
    } else {
      assert (a + b)[1..] == a[1..] + b;
      PosSumConcat(a[1..], b, !odd);
    }
  }

  lemma {:induction false} PosSumBound(d: Data, odd: bool)
    ensures PosSum(d, odd) <= 65280 * |d|
    ensures PosSum(d, odd) == 0 <==> forall i :: 0 <= i < |d| ==> d[i] == 0
    decreases |d|
  {
    if d != [] {
      PosSumBound(d[1..], !odd);
      if forall i :: 0 <= i < |d| ==> d[i] == 0 {
        assert forall i :: 0 <= i < |d[1..]| ==> d[1..][i] == d[i + 1];
      } else if d[0] == 0 {
        var i :| 0 <= i < |d| && d[i] != 0;
        assert d[1..][i - 1] != 0;
      }
    }
  }

  function Swap(x: uint16): uint16 { x % 256 * 256 + x / 256 }

  /** Summing whole words at the wrong parity is summing them and swapping the result. */
  lemma {:induction false} SwapsParity(d: Data)
    requires |d| % 2 == 0
    ensures Cong(256 * PosSum(d, false), PosSum(d, true))
    decreases |d|
  {
    if d == [] {
      CongBy(0, 0, 0);
    } else {
      SwapsParity(d[2..]);
      assert d[1..][1..] == d[2..];
      var x: int, y: int := d[0], d[1];
      CongBy(256 * (256 * x + y), x + 256 * y, x);
      CongAdd(256 * (256 * x + y), x + 256 * y, 256 * PosSum(d[2..], false), PosSum(d[2..], true));
      assert PosSum(d, false) == 256 * d[0] + (d[1] + PosSum(d[2..], false));
      assert PosSum(d, true) == d[0] + (256 * d[1] + PosSum(d[2..], true));
    }
  }

  lemma CongScale(a: int, b: int)
    requires Cong(a, b)
    ensures Cong(256 * a, 256 * b)
  {
    var k :| a - b == M(k);
    CongBy(256 * a, 256 * b, 256 * k);
  }

  /** `lcsum`: the end-around-carry sum of whole words. Its code, in assembler, is not part of this model. */
  function LcSum(d: Data): uint16
    requires |d| % 2 == 0
  {
    FoldMeans(WordSum(d));
    Fold(WordSum(d))
  }

  /** The word sum as `cksum` uses it, swapped when the words start at an odd position. */
  lemma LcSumMeans(d: Data, odd: bool)
    requires |d| % 2 == 0
    ensures Cong(WordsAt(d, odd), PosSum(d, odd)) && (WordsAt(d, odd) == 0 <==> PosSum(d, odd) == 0)
  {
    var x: int := LcSum(d);
    FoldMeans(WordSum(d));
    WordSumIsPosSum(d);
    CongBy(x, x, 0);
    CongTrans(WordSum(d), x, x);
    PosSumBound(d, false);
    PosSumBound(d, true);
    if odd {
      CongBy(Swap(x), 256 * x, -(x / 256));
      CongScale(x, PosSum(d, false));
      SwapsParity(d);
      CongTrans(Swap(x), 256 * x, 256 * PosSum(d, false));
      CongTrans(Swap(x), 256 * PosSum(d, false), PosSum(d, true));
    }
  }

  // Chains

  /** One buffer of a chain: its contents and whether its data starts at an odd address. */
  datatype Seg = Seg(data: Data, oddAddress: bool)

  function Flat(chain: seq<Seg>): Data {
    if chain == [] then [] else chain[0].data + Flat(chain[1..])
  }

  datatype Pseudo = Pseudo(source: uint32, dest: uint32, protocol: byte, length: uint16)

  function PseudoSum(ph: Option<Pseudo>): (s: nat)
    ensures s <= 393210
  {
    match ph
    case None => 0
    case Some(p) =>
      p.source / 0x1_0000 + p.source % 0x1_0000 + p.dest / 0x1_0000 + p.dest % 0x1_0000 + p.protocol + p.length
  }

  /** `eac` */
  method Eac(sum0: uint32) returns (r: uint16)
    ensures r == Fold(sum0)
  {
    var sum: uint32 := sum0;
    var csum := sum / 0x1_0000;
    while csum != 0
      invariant csum == sum / 0x1_0000 && Fold(sum) == Fold(sum0)
      decreases sum
    {
      sum := csum + sum % 0x1_0000;
      csum := sum / 0x1_0000;
    }
    r := sum;
  }

  /** The contribution of one buffer, and the parity after it. */
  method SumSegment(d: Data, oddAddress: bool, swap0: bool) returns (csum: uint32, swap: bool)
    requires d != [] || !oddAddress
    requires |d| < 0x1_0000
    ensures Agrees(csum, PosSum(d, swap0))
    ensures csum <= 65280 * |d| && swap == Flip(swap0, |d|)
  {
    var up, cnt := 0, |d|;
    csum, swap := 0, swap0;
    if oddAddress {
      csum := Weigh(swap, d[0]);
      up, cnt := 1, cnt - 1;
      swap := !swap;
    }
    ghost var even := cnt / 2 * 2;
    SegmentAgrees(d, up, even, swap0);
    if cnt > 1 {
      csum := csum + WordsAt(d[up..up + cnt / 2 * 2], swap);
    }
    if cnt % 2 == 1 {
      csum := csum + Weigh(swap, d[up + cnt - 1]);
      swap := !swap;
    }
  }

  lemma SegmentAgrees(d: Data, up: nat, even: nat, odd: bool)
    requires up <= 1 && up <= |d| && even == (|d| - up) / 2 * 2
    ensures up + even <= |d| <= up + even + 1
    ensures Agrees((if up == 1 then Weigh(odd, d[0]) else 0) + WordsAt(d[up..up + even], Flip(odd, up))
                   + (if up + even < |d| then Weigh(Flip(odd, up), d[|d| - 1]) else 0), PosSum(d, odd))
  {
    var mid := Flip(odd, up);
    SegmentParts(d, up, even, odd);
    LcSumMeans(d[up..up + even], mid);
    SumParts(if up == 1 then Weigh(odd, d[0]) else 0, WordsAt(d[up..up + even], mid), PosSum(d[up..up + even], mid),
             if up + even < |d| then Weigh(mid, d[|d| - 1]) else 0);
  }

  /** The word sum of aligned octets, swapped when they start at an odd position of the stream. */
  function WordsAt(d: Data, odd: bool): (s: uint16)
    requires |d| % 2 == 0
    ensures d == [] ==> s == 0
    ensures d != [] ==> s <= 65280 * |d|
  {
    if odd then Swap(LcSum(d)) else LcSum(d)
  }

  /** A buffer is an optional odd octet, whole words, and an optional trailing octet. */
  lemma SegmentParts(d: Data, up: nat, even: nat, odd: bool)
    requires up <= 1 && up <= |d| && even == (|d| - up) / 2 * 2
    ensures up + even <= |d| <= up + even + 1
    ensures PosSum(d, odd) == (if up == 1 then Weigh(odd, d[0]) else 0)
                              + PosSum(d[up..up + even], Flip(odd, up))
                              + (if up + even < |d| then Weigh(Flip(odd, up), d[|d| - 1]) else 0)
  {
    ThreeParts(d[..up], d[up..up + even], d[up + even..], odd);
    assert d == d[..up] + (d[up..up + even] + d[up + even..]);
  }

  lemma ThreeParts(lead: Data, words: Data, tail: Data, odd: bool)
    requires |lead| <= 1 && |words| % 2 == 0 && |tail| <= 1
    ensures PosSum(lead + (words + tail), odd) == (if lead == [] then 0 else Weigh(odd, lead[0]))
                                                  + PosSum(words, Flip(odd, |lead|))
                                                  + (if tail == [] then 0 else Weigh(Flip(odd, |lead|), tail[0]))
  {
    PosSumConcat(lead, words + tail, odd);
    PosSumConcat(words, tail, Flip(odd, |lead|));
    PosSumOne(lead, odd);
    PosSumOne(tail, Flip(odd, |lead|));
  }

  lemma PosSumOne(d: Data, odd: bool)
    requires |d| <= 1
    ensures PosSum(d, odd) == if d == [] then 0 else Weigh(odd, d[0])
  {
    if d != [] {
      assert d[1..] == [];
    }
  }

  lemma SumParts(a: nat, w: nat, s: nat, t: nat)
    requires Cong(w, s) && (w == 0 <==> s == 0)
    ensures Cong(a + w + t, a + (s + t)) && (a + w + t == 0 <==> a + (s + t) == 0)
  {
    CongBy(a + t, a + t, 0);
    CongAdd(a + t, a + t, w, s);
  }

  /**
   `cksum`: for every split of the octets into buffers, every parity of their lengths and
   addresses, the complement of the folded RFC 1071 sum of the first `len` octets. A buffer
   at an odd address must not be empty: the source would read the octet before its count.
  */
  method Checksum(ph: Option<Pseudo>, chain: seq<Seg>, len: uint16) returns (r: uint16)
    requires forall i :: 0 <= i < |chain| ==> |chain[i].data| < 0x1_0000
    requires forall i :: 0 <= i < |chain| && chain[i].oddAddress ==> chain[i].data != []
    requires Counted(chain, len)
    ensures r == 0xffff - Fold(PseudoSum(ph) + WordSum(Flat(chain)[..Min(len, |Flat(chain)|)]))
  {
    var base := PseudoSum(ph);
    var sum := SumChain(base, chain, len);
    ghost var d := Flat(chain)[..Min(len, |Flat(chain)|)];
    WordSumIsPosSum(d);
    FoldUnique(sum, base + WordSum(d));
    FoldMeans(sum);
    var e := Eac(sum);
    r := 0xffff - e;
  }

  /** Equal modulo 65535, and zero together: what makes two sums fold to the same word. */
  ghost predicate Agrees(a: nat, b: nat) { Cong(a, b) && (a == 0 <==> b == 0) }

  lemma AgreesGrows(sum: nat, base: nat, seen: Data, csum: nat, d: Data)
    requires Agrees(sum, base + PosSum(seen, false)) && Agrees(csum, PosSum(d, Flip(false, |seen|)))
    ensures Agrees(sum + csum, base + PosSum(seen + d, false))
  {
    PosSumConcat(seen, d, false);
    CongAdd(sum, base + PosSum(seen, false), csum, PosSum(d, Flip(false, |seen|)));
  }

  /** The sixteen-bit count of octets does not wrap while there is more to sum. */
  ghost predicate Counted(chain: seq<Seg>, len: uint16) {
    forall i: nat :: i + 1 < |chain| && |Flat(chain[..i])| < len ==> |Flat(chain[..i + 1])| < 0x1_0000
  }

  /** The loop over the chain; sixteen-bit counts keep the thirty-two bit sum from overflowing. */
  method SumChain(base: nat, chain: seq<Seg>, len: uint16) returns (sum: uint32)
    requires base <= 393210
    requires forall i :: 0 <= i < |chain| ==> |chain[i].data| < 0x1_0000
    requires forall i :: 0 <= i < |chain| && chain[i].oddAddress ==> chain[i].data != []
    requires Counted(chain, len)
    ensures var d := Flat(chain)[..Min(len, |Flat(chain)|)];
            Agrees(sum, base + PosSum(d, false))
  {
    sum := base;
    var total: uint16, i, swap := 0, 0, false;
    CongBy(base, base, 0);
    while i < |chain| && total < len
      invariant Summing(sum, base, chain, i, len, total, swap)
    {
      var m := chain[i];
      var cnt := Min(|m.data|, len - total);
      var csum, swap1 := SumSegment(m.data[..cnt], m.oddAddress, swap);
      ChainTurn(sum, base, chain, i, len, total, swap, csum, swap1);
      swap := swap1;
      sum := sum + csum;
      total := Wrap16(total + |m.data|);
      i := i + 1;
    }
    HeadDone(chain, i, len);
  }

  /** The sum over the first `i` buffers, and what keeps it within thirty-two bits. */
  ghost predicate SumOk(sum: nat, base: nat, chain: seq<Seg>, i: nat, len: nat)
    requires i <= |chain|
  {
    var seen := Head(chain, i, len);
    Agrees(sum, base + PosSum(seen, false)) && sum <= 393210 + 65280 * |seen|
  }

  /** Buffer `i` is next: the sum so far, the octets counted, and the parity of the next one. */
  ghost predicate Summing(sum: nat, base: nat, chain: seq<Seg>, i: int, len: nat, total: nat, swap: bool) {
    && 0 <= i <= |chain| && SumOk(sum, base, chain, i, len)
    && (i < |chain| ==> total == |Flat(chain[..i])| && (total < len ==> swap == Flip(false, total)))
  }

  lemma ChainTurn(sum: nat, base: nat, chain: seq<Seg>, i: nat, len: uint16, total: uint16, swap: bool, csum: nat, swap1: bool)
    requires Summing(sum, base, chain, i, len, total, swap) && Counted(chain, len) && i < |chain| && total < len
    requires |chain[i].data| < 0x1_0000
    requires var d := chain[i].data[..Min(|chain[i].data|, len - total)];
             Agrees(csum, PosSum(d, swap)) && csum <= 65280 * |d| && swap1 == Flip(swap, |d|)
    ensures sum + csum < 0x1_0000_0000
    ensures Summing(sum + csum, base, chain, i + 1, len, Wrap16(total + |chain[i].data|), swap1)
  {
    ChainStep(sum, base, chain, i, len, csum);
  }

  lemma ChainStep(sum: nat, base: nat, chain: seq<Seg>, i: nat, len: uint16, csum: nat)
    requires i < |chain| && SumOk(sum, base, chain, i, len) && |Flat(chain[..i])| < len
    requires var d := chain[i].data[..Min(|chain[i].data|, len - |Flat(chain[..i])|)];
             Agrees(csum, PosSum(d, Flip(false, |Flat(chain[..i])|))) && csum <= 65280 * |d|
    requires Counted(chain, len)
    ensures SumOk(sum + csum, base, chain, i + 1, len) && sum + csum < 0x1_0000_0000
    ensures |Flat(chain[..i + 1])| == |Flat(chain[..i])| + |chain[i].data|
    ensures i + 1 < |chain| ==> Wrap16(|Flat(chain[..i])| + |chain[i].data|) == |Flat(chain[..i + 1])|
  {
    HeadGrows(chain, i, len);
    AgreesGrows(sum, base, Head(chain, i, len), csum, chain[i].data[..Min(|chain[i].data|, len - |Flat(chain[..i])|)]);
  }

  /** The octets summed once the first `i` buffers have been visited. */
  function Head(chain: seq<Seg>, i: nat, len: nat): Data
    requires i <= |chain|
  {
    var f := Flat(chain[..i]);
    f[..Min(len, |f|)]
  }

  lemma HeadGrows(chain: seq<Seg>, i: nat, len: nat)
    requires i < |chain| && |Flat(chain[..i])| < len
    ensures var cnt := Min(|chain[i].data|, len - |Flat(chain[..i])|);
            && Head(chain, i + 1, len) == Head(chain, i, len) + chain[i].data[..cnt]
            && |Flat(chain[..i + 1])| == |Flat(chain[..i])| + |chain[i].data|
            && |Head(chain, i, len)| == |Flat(chain[..i])|
  {
    FlatSnoc(chain, i);
  }

  lemma HeadDone(chain: seq<Seg>, i: nat, len: nat)
    requires i <= |chain| && (i == |chain| || |Flat(chain[..i])| >= len)
    ensures Head(chain, i, len) == Flat(chain)[..Min(len, |Flat(chain)|)]
  {
    FlatPrefix(chain, i);
    if i == |chain| {
      assert chain[..i] == chain;
    }
  }

  lemma {:induction false} FlatSnoc(chain: seq<Seg>, i: nat)
    requires i < |chain|
    ensures Flat(chain[..i + 1]) == Flat(chain[..i]) + chain[i].data
    decreases i
  {
    if i == 0 {
      assert chain[..1][1..] == [];
    } else {
      assert chain[..i + 1][1..] == chain[1..][..i] && chain[..i][1..] == chain[1..][..i - 1];
      FlatSnoc(chain[1..], i - 1);
    }
  }

  lemma {:induction false} FlatPrefix(chain: seq<Seg>, i: nat)
    requires i <= |chain|
    ensures |Flat(chain[..i])| <= |Flat(chain)| && Flat(chain)[..|Flat(chain[..i])|] == Flat(chain[..i])
    decreases i
  {
    if i > 0 {
      FlatPrefix(chain[1..], i - 1);
      assert chain[..i][1..] == chain[1..][..i - 1];
    }
  }
}
