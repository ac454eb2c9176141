module IpDelivery {
  // Fragmentation followed by reassembly is the identity (RFC 791, section 3.2), whatever the
  // order, the repetitions, the refragmentation on the way, and the other traffic in between.

  import opened Bytes
  import opened Ip
  import opened IpReasm
  import opened Lists

  // The list of a descriptor

  predicate In(o: int, l: int, x: int) { o <= x < l }

  /** The octet numbers from `o` up to `l`. */
  function Span(o: int, l: int): set<int> { set x | o <= x < l && In(o, l, x) }

  function Octets(fs: seq<Frag>): set<int> {
    if fs == [] then {} else Span(fs[0].offset, fs[0].last) + Octets(fs[1..])
  }

  /** The entries hold their octets of the datagram, in order, begin past `lo`, and never touch. */
  predicate Chain(fs: seq<Frag>, data: Data, lo: int) {
    fs == [] ||
    (&& lo < fs[0].offset < fs[0].last <= |data| && fs[0].buf == data[fs[0].offset..fs[0].last] && !fs[0].stale
     && Chain(fs[1..], data, fs[0].last))
  }

  function End(fs: seq<Frag>, lo: int): int { if fs == [] then lo else fs[|fs| - 1].last }

  lemma {:induction false} ChainSplit(fs: seq<Frag>, data: Data, lo: int, k: nat)
    requires Chain(fs, data, lo) && k <= |fs|
    ensures Chain(fs[..k], data, lo) && Chain(fs[k..], data, End(fs[..k], lo))
    ensures Octets(fs) == Octets(fs[..k]) + Octets(fs[k..])
    decreases k
  {
    if k > 0 {
      ChainSplit(fs[1..], data, fs[0].last, k - 1);
      assert fs[..k][1..] == fs[1..][..k - 1] && fs[1..][k - 1..] == fs[k..];
    }
  }

  lemma {:induction false} ChainJoin(a: seq<Frag>, b: seq<Frag>, data: Data, lo: int)
    requires Chain(a, data, lo) && Chain(b, data, End(a, lo))
    ensures Chain(a + b, data, lo) && Octets(a + b) == Octets(a) + Octets(b)
    decreases |a|
  {
    if a == [] {
      assert a + b == b;
    } else {
      ChainJoin(a[1..], b, data, a[0].last);
      assert (a + b)[1..] == a[1..] + b;
    }
  }

  /** Three parts of a list, the middle one a single entry. */
  lemma ChainPut(a: seq<Frag>, f: Frag, b: seq<Frag>, data: Data)
    requires Chain(a, data, -1) && Chain(b, data, f.last)
    requires End(a, -1) < f.offset < f.last <= |data| && f.buf == data[f.offset..f.last] && !f.stale
    ensures Chain(a + [f] + b, data, -1) && Octets(a + [f] + b) == Octets(a) + Span(f.offset, f.last) + Octets(b)
  {
    assert [f][1..] == [];
    ChainJoin(a, [f], data, -1);
    ChainJoin(a + [f], b, data, -1);
  }

  lemma {:induction false} EntryAt(fs: seq<Frag>, data: Data, lo: int, i: nat)
    requires Chain(fs, data, lo) && i < |fs|
    ensures lo < fs[i].offset < fs[i].last <= |data| && fs[i].buf == data[fs[i].offset..fs[i].last] && !fs[i].stale
    ensures Span(fs[i].offset, fs[i].last) <= Octets(fs)
    ensures i + 1 < |fs| ==> fs[i].last < fs[i + 1].offset
    ensures fs[i].last !in Octets(fs) && forall x :: x in Octets(fs) ==> lo < x < |data|
    decreases |fs|
  {
    Beyond(fs[1..], data, fs[0].last);
    if i > 0 {
      EntryAt(fs[1..], data, fs[0].last, i - 1);
    }
  }

  lemma {:induction false} Beyond(fs: seq<Frag>, data: Data, lo: int)
    requires Chain(fs, data, lo)
    ensures forall x :: x in Octets(fs) ==> lo < x < |data|
    decreases |fs|
  {
    if fs != [] {
      Beyond(fs[1..], data, fs[0].last);
    }
  }

  lemma {:induction false} EntryOf(fs: seq<Frag>, x: int) returns (i: nat)
    requires x in Octets(fs)
    ensures i < |fs| && fs[i].offset <= x < fs[i].last
    decreases |fs|
  {
    if In(fs[0].offset, fs[0].last, x) {
      i := 0;
    } else {
      var j := EntryOf(fs[1..], x);
      i := j + 1;
    }
  }

  lemma {:induction false} Ordered(fs: seq<Frag>, data: Data, lo: int, i: nat, j: nat)
    requires Chain(fs, data, lo) && i < j < |fs|
    ensures fs[i].last < fs[j].offset
    decreases j
  {
    EntryAt(fs, data, lo, j - 1);
    if i < j - 1 {
      Ordered(fs, data, lo, i, j - 1);
    }
  }

  lemma Grows(fs: seq<Frag>, data: Data, i: nat, j: nat)
    requires Chain(fs, data, -1) && i <= j < |fs|
    ensures fs[i].offset <= fs[j].offset && fs[i].last <= fs[j].last
  {
    EntryAt(fs, data, -1, i);
    EntryAt(fs, data, -1, j);
    if i < j {
      Ordered(fs, data, -1, i, j);
    }
  }

  /** A fragment all of whose octets are there is dropped. */
  lemma InsertRepeat(fs: seq<Frag>, data: Data, o: nat, l: nat)
    requires Chain(fs, data, -1) && o < l <= |data| && Span(o, l) <= Octets(fs)
    ensures Insert(fs, o, l, data[o..l]) == Nothing
  {
    assert o in Span(o, l);
    var i := EntryOf(fs, o);
    EntryAt(fs, data, -1, i);
    assert fs[i].last !in Span(o, l);
    var k := NextIndex(fs, 0, o);
    if k <= i {
      Grows(fs, data, k, i);
    } else {
      Grows(fs, data, i, k - 1);
    }
    InsertInside(fs, o, l, data[o..l]);
  }

  lemma InsertInside(fs: seq<Frag>, o: nat, l: nat, d: Data)
    requires o < l && |d| == l - o
    requires var k := NextIndex(fs, 0, o); k > 0 && l <= fs[k - 1].last
    ensures Insert(fs, o, l, d) == Nothing
  {
  }

  /** A fragment none of whose octets are there lies between two entries. */
  lemma Between(fs: seq<Frag>, data: Data, o: nat, l: nat)
    requires Chain(fs, data, -1) && o < l <= |data| && Span(o, l) !! Octets(fs)
    ensures var k := NextIndex(fs, 0, o);
            (k > 0 ==> fs[k - 1].last <= o) && (k < |fs| ==> l <= fs[k].offset)
  {
    var k := NextIndex(fs, 0, o);
    assert o in Span(o, l);
    if k > 0 {
      EntryAt(fs, data, -1, k - 1);
      assert o !in Span(fs[k - 1].offset, fs[k - 1].last);
    }
    if k < |fs| {
      EntryAt(fs, data, -1, k);
      assert fs[k].offset in Span(fs[k].offset, fs[k].last);
      assert fs[k].offset !in Span(o, l);
    }
  }

  /** A fragment between two entries is linked whole. */
  lemma InsertBetween(fs: seq<Frag>, o: nat, l: nat, d: Data)
    requires var k := NextIndex(fs, 0, o);
             (k > 0 ==> fs[k - 1].last <= o) && (k < |fs| ==> l <= fs[k].offset)
    ensures var k := NextIndex(fs, 0, o); Insert(fs, o, l, d) == Into(Link(fs[..k], [], fs[k..], o, l, d))
  {
    var k := NextIndex(fs, 0, o);
    assert d[0..] == d;
  }

  lemma SpanJoin(o: int, m: int, l: int)
    requires o <= m <= l
    ensures Span(o, m) + Span(m, l) == Span(o, l)
  {
    assert forall x :: In(o, l, x) <==> In(o, m, x) || In(m, l, x);
  }

  lemma Slices(d: Data, a: nat, b: nat, c: nat)
    requires a <= b <= c <= |d|
    ensures d[a..b] + d[b..c] == d[a..c]
  {
  }

  lemma RelinkedSame(fs: seq<Frag>)
    requires fs != [] ==> !fs[0].stale
    ensures Relinked(fs) == fs
  {
  }

  /** The new fragment touches both neighbours: three entries become one. */
  lemma LinkBoth(fs: seq<Frag>, data: Data, k: nat, o: nat, l: nat)
    requires Chain(fs, data, -1) && o < l <= |data| && 0 < k < |fs| && fs[k - 1].last == o && fs[k].offset == l
    ensures var r := Link(fs[..k], [], fs[k..], o, l, data[o..l]);
            r != [] && Chain(r, data, -1) && Octets(r) == Octets(fs) + Span(o, l)
  {
    var a, p, n, b := fs[..k - 1], fs[k - 1], fs[k], fs[k + 1..];
    Parts(fs, data, k - 1);
    Parts(fs, data, k);
    if k + 1 < |fs| { EntryAt(fs, data, -1, k + 1); }
    Slices(data, p.offset, o, l);
    Slices(data, p.offset, l, n.last);
    ChainPut(a, Frag(p.offset, n.last, p.buf + data[o..l] + n.buf, false), b, data);
    LinkBothIs(fs, k, o, l, data[o..l]);
    SpansJoin(Octets(a), Octets(b), p.offset, o, l, n.last);
  }

  lemma SpansJoin(a: set<int>, b: set<int>, p: int, o: int, l: int, n: int)
    requires p <= o <= l <= n
    ensures a + Span(p, n) + b == a + Span(p, o) + (Span(l, n) + b) + Span(o, l)
  {
    SpanJoin(p, o, l);
    SpanJoin(p, l, n);
  }

  lemma LinkBothIs(fs: seq<Frag>, k: nat, o: nat, l: nat, d: Data)
    requires 0 < k < |fs| && fs[k - 1].last == o && fs[k].offset == l && !fs[k - 1].stale
    requires k + 1 < |fs| ==> !fs[k + 1].stale
    ensures Link(fs[..k], [], fs[k..], o, l, d) ==
            fs[..k - 1] + [Frag(fs[k - 1].offset, fs[k].last, fs[k - 1].buf + d + fs[k].buf, false)] + fs[k + 1..]
  {
    RelinkedSame(fs[k + 1..]);
    assert fs[k..][1..] == fs[k + 1..] && fs[..k][..k - 1] == fs[..k - 1];
  }

  /** Taking one entry out of a chain, with what it covers. */
  lemma Parts(fs: seq<Frag>, data: Data, k: nat, lo: int := -1)
    requires Chain(fs, data, lo) && k < |fs|
    ensures Chain(fs[..k], data, lo) && Chain(fs[k + 1..], data, fs[k].last)
    ensures End(fs[..k], lo) < fs[k].offset < fs[k].last <= |data|
    ensures fs[k].buf == data[fs[k].offset..fs[k].last] && !fs[k].stale
    ensures Octets(fs) == Octets(fs[..k]) + Span(fs[k].offset, fs[k].last) + Octets(fs[k + 1..])
    ensures Chain(fs[k..], data, End(fs[..k], lo)) && Chain(fs[k + 1..], data, End(fs[..k + 1], lo))
    ensures Octets(fs[k..]) == Span(fs[k].offset, fs[k].last) + Octets(fs[k + 1..])
  {
    ChainSplit(fs, data, lo, k);
    assert fs[k..][1..] == fs[k + 1..];
  }

  lemma LinkBefore(fs: seq<Frag>, data: Data, k: nat, o: nat, l: nat)
    requires Chain(fs, data, -1) && o < l <= |data| && 0 < k <= |fs| && fs[k - 1].last == o
    requires k < |fs| ==> l < fs[k].offset
    ensures var r := Link(fs[..k], [], fs[k..], o, l, data[o..l]);
            r != [] && Chain(r, data, -1) && Octets(r) == Octets(fs) + Span(o, l)
  {
    var a, p, b := fs[..k - 1], fs[k - 1], fs[k..];
    Parts(fs, data, k - 1);
    Slices(data, p.offset, o, l);
    var f := Frag(p.offset, l, p.buf + data[o..l], false);
    ChainPut(a, f, b, data);
    LinkBeforeIs(fs, k, o, l, data[o..l]);
    SpanJoin(p.offset, o, l);
  }

  lemma LinkBeforeIs(fs: seq<Frag>, k: nat, o: nat, l: nat, d: Data)
    requires 0 < k <= |fs| && fs[k - 1].last == o && !fs[k - 1].stale && (k < |fs| ==> l < fs[k].offset)
    ensures Link(fs[..k], [], fs[k..], o, l, d) ==
            fs[..k - 1] + [Frag(fs[k - 1].offset, l, fs[k - 1].buf + d, false)] + fs[k..]
  {
    var front := fs[..k - 1] + [Frag(fs[k - 1].offset, l, fs[k - 1].buf + d, false)];
    assert front + [] == front && fs[..k][..k - 1] == fs[..k - 1];
  }

  lemma LinkAfter(fs: seq<Frag>, data: Data, k: nat, o: nat, l: nat)
    requires Chain(fs, data, -1) && o < l <= |data| && k < |fs| && fs[k].offset == l
    requires k > 0 ==> fs[k - 1].last < o
    ensures var r := Link(fs[..k], [], fs[k..], o, l, data[o..l]);
            r != [] && Chain(r, data, -1) && Octets(r) == Octets(fs) + Span(o, l)
  {
    var a, n, b := fs[..k], fs[k], fs[k + 1..];
    Parts(fs, data, k);
    Slices(data, o, l, n.last);
    ChainPut(a, Frag(o, n.last, data[o..l] + n.buf, false), b, data);
    assert a + [] == a;
    SpanJoin(o, l, n.last);
  }

  lemma LinkAlone(fs: seq<Frag>, data: Data, k: nat, o: nat, l: nat)
    requires Chain(fs, data, -1) && o < l <= |data| && k <= |fs|
    requires (k > 0 ==> fs[k - 1].last < o) && (k < |fs| ==> l < fs[k].offset)
    ensures var r := Link(fs[..k], [], fs[k..], o, l, data[o..l]);
            r != [] && Chain(r, data, -1) && Octets(r) == Octets(fs) + Span(o, l)
  {
    ChainSplit(fs, data, -1, k);
    ChainPut(fs[..k], Frag(o, l, data[o..l], false), fs[k..], data);
    LinkAloneIs(fs, k, o, l, data[o..l]);
  }

  lemma LinkAloneIs(fs: seq<Frag>, k: nat, o: nat, l: nat, d: Data)
    requires k <= |fs| && (k > 0 ==> fs[k - 1].last < o) && (k < |fs| ==> l < fs[k].offset && !fs[k].stale)
    ensures Link(fs[..k], [], fs[k..], o, l, d) == fs[..k] + [Frag(o, l, d, false)] + fs[k..]
  {
    RelinkedSame(fs[k..]);
  }

  /** A fragment none of whose octets are there is linked in, joined to the neighbours it touches. */
  lemma InsertKeeps(fs: seq<Frag>, data: Data, o: nat, l: nat) returns (r: seq<Frag>)
    requires Chain(fs, data, -1) && o < l <= |data| && Span(o, l) !! Octets(fs)
    ensures Insert(fs, o, l, data[o..l]) == Into(r)
    ensures r != [] && Chain(r, data, -1) && Octets(r) == Octets(fs) + Span(o, l)
  {
    var k := NextIndex(fs, 0, o);
    r := Link(fs[..k], [], fs[k..], o, l, data[o..l]);
    Between(fs, data, o, l);
    InsertBetween(fs, o, l, data[o..l]);
    if k > 0 && fs[k - 1].last == o && k < |fs| && fs[k].offset == l {
      LinkBoth(fs, data, k, o, l);
    } else if k > 0 && fs[k - 1].last == o {
      LinkBefore(fs, data, k, o, l);
    } else if k < |fs| && fs[k].offset == l {
      LinkAfter(fs, data, k, o, l);
    } else {
      LinkAlone(fs, data, k, o, l);
    }
  }

  lemma {:induction false} EndCovers(fs: seq<Frag>, data: Data)
    requires Chain(fs, data, -1) && data != []
    ensures End(fs, -1) == |data| <==> |data| - 1 in Octets(fs)
  {
    if fs != [] {
      EntryAt(fs, data, -1, |fs| - 1);
      if |data| - 1 in Octets(fs) {
        var i := EntryOf(fs, |data| - 1);
        EntryAt(fs, data, -1, i);
        if i < |fs| - 1 {
          Ordered(fs, data, -1, i, |fs| - 1);
        }
      }
      assert In(fs[|fs| - 1].offset, fs[|fs| - 1].last, fs[|fs| - 1].last - 1);
    }
  }

  /** One entry from the first octet to the last: what the source's completion test amounts to. */
  predicate Done(fs: seq<Frag>, data: Data) { |fs| == 1 && fs[0].offset == 0 && fs[0].last == |data| }

  lemma Last(fs: seq<Frag>, data: Data, i: nat)
    requires Chain(fs, data, -1) && i < |fs| && fs[i].last == |data|
    ensures i == |fs| - 1
  {
    if i + 1 < |fs| {
      EntryAt(fs, data, -1, i);
      EntryAt(fs, data, -1, i + 1);
    }
  }

  lemma DoneIsFull(fs: seq<Frag>, data: Data)
    requires Chain(fs, data, -1) && data != []
    ensures Octets(fs) == Span(0, |data|) <==> Done(fs, data)
  {
    assert In(0, |data|, 0);
    if Octets(fs) == Span(0, |data|) {
      var i := EntryOf(fs, 0);
      EntryAt(fs, data, -1, i);
      assert !In(0, |data|, fs[i].last) && fs[i].last == |data|;
      if i > 0 {
        EntryAt(fs, data, -1, i - 1);
      }
      Last(fs, data, i);
    }
    if Done(fs, data) {
      assert fs[1..] == [];
    }
  }

  // One descriptor, one datagram

  /** The octets of a datagram that a descriptor (or the lack of one) holds. */
  function Got(rp: seq<Reasm>): set<int> { if rp == [] then {} else Octets(rp[0].frags) }

  /** The length field is set exactly when the last octet has arrived. */
  predicate Length(fs: seq<Frag>, data: Data, length: nat) {
    length == if End(fs, -1) == |data| then |data| else 0
  }

  /** A descriptor in the middle of reassembling the datagram `data` (none: nothing has arrived). */
  predicate Holding(rp: seq<Reasm>, key: Key, data: Data) {
    && 0 < |data| < 0x1_0000
    && (rp == [] ||
        (&& |rp| == 1 && rp[0].key == key && rp[0].frags != [] && Chain(rp[0].frags, data, -1)
         && !Done(rp[0].frags, data) && Length(rp[0].frags, data, rp[0].length)))
  }

  /** A fragment carrying the octets `[o, l)` of the datagram. */
  predicate PieceOf(ip: Ip, data: Data, o: nat, l: nat, f: Datagram) {
    && o < l <= |data| && |data| + ip.HdrLen() < 0x1_0000
    && f == Datagram(FragHead(ip, o, l - o, l < |data|), data[o..l])
  }

  function Restored(ip: Ip, data: Data): Ip
    requires |data| + ip.HdrLen() < 0x1_0000
  {
    FragHead(ip, 0, |data|, false)
  }

  /** The header of a fragment, as far as reassembly looks at it. */
  predicate HeadOf(h: Ip, key: Key, data: Data, o: nat, l: nat) {
    && o < l <= |data| && !(o == 0 && l == |data|)
    && KeyOf(h) == key && h.offset == o && LastOf(h) == l && h.mf == (l < |data|)
  }

  /** What `Handle` does once the fragment is in the list. */
  lemma HandleInto(rp: seq<Reasm>, ip: Ip, d: Data, fs: seq<Frag>)
    requires |rp| <= 1 && !Whole(ip) && fs != []
    requires Insert(FragsOf(rp), ip.offset, LastOf(ip), d) == Into(fs)
    ensures var len := if !ip.mf then LastOf(ip) else if rp == [] then 0 else rp[0].length;
            var key := if rp == [] then KeyOf(ip) else rp[0].key;
            Handle(rp, ip, d) ==
              if |fs| == 1 && fs[0].offset == 0 && len != 0 then
                Step(Complete(ip.(length := Wrap16(len + ip.HdrLen()), offset := 0, mf := false), fs[0].buf), [])
              else Step(Incomplete, [Reasm(key, fs, len)])
  {
    SettleInto(rp, ip, fs);
  }

  lemma SettleInto(rp: seq<Reasm>, ip: Ip, fs: seq<Frag>)
    requires |rp| <= 1 && fs != []
    ensures var len := if !ip.mf then LastOf(ip) else if rp == [] then 0 else rp[0].length;
            var key := if rp == [] then KeyOf(ip) else rp[0].key;
            Noted(rp, ip).frags == FragsOf(rp) &&
            Settle(Noted(rp, ip), ip, Into(fs)) ==
              if |fs| == 1 && fs[0].offset == 0 && len != 0 then
                Step(Complete(ip.(length := Wrap16(len + ip.HdrLen()), offset := 0, mf := false), fs[0].buf), [])
              else Step(Incomplete, [Reasm(key, fs, len)])
  {
  }

  /**
   Fragments of one datagram, overlapping or not: the null pointer is followed if and only if a
   fragment begins before the last entry held of it and covers it.
   */
  lemma ChainFaultIff(rp: seq<Reasm>, key: Key, data: Data, h: Ip, o: nat, l: nat)
    requires Holding(rp, key, data) && HeadOf(h, key, data, o, l)
    ensures Handle(rp, h, data[o..l]).outcome == Fault <==>
            var fs := FragsOf(rp); fs != [] && o < fs[|fs| - 1].offset && fs[|fs| - 1].last <= l
  {
    var fs := FragsOf(rp);
    FaultIff(rp, h, data[o..l]);
    if fs != [] {
      EntryAt(fs, data, -1, |fs| - 1);
      TailCovered(fs, data, o, l, NextIndex(fs, 0, o));
    }
  }

  lemma TailCovered(fs: seq<Frag>, data: Data, o: nat, l: nat, k: nat)
    requires fs != [] && Chain(fs, data, -1) && o < l <= |data| && k == NextIndex(fs, 0, o)
    ensures (exists i: nat :: i < |fs[k..]| && BadLink(fs[k..], i, l)) <==>
            o < fs[|fs| - 1].offset && fs[|fs| - 1].last <= l
    ensures o < fs[|fs| - 1].offset && fs[|fs| - 1].last <= l ==> Overlap(fs[..k], o) < l - o
  {
    var n := |fs| - 1;
    EntryAt(fs, data, -1, n);
    if o < fs[n].offset && fs[n].last <= l {
      forall i | k <= i < |fs| ensures fs[i].offset < l {
        if i < n { Ordered(fs, data, -1, i, n); EntryAt(fs, data, -1, i); }
      }
      if k > 0 {
        Ordered(fs, data, -1, k - 1, n);
      }
      assert BadLink(fs[k..], n - k, l);
    }
    if i: nat :| i < |fs[k..]| && BadLink(fs[k..], i, l) {
      EntryAt(fs, data, -1, k + i);
      assert fs[n].offset > o by {
        if k < n { Ordered(fs, data, -1, k, n); EntryAt(fs, data, -1, k); }
      }
    }
  }

  /** New octets: the datagram completes exactly when its list becomes one full entry. */
  lemma FreshArrival(rp: seq<Reasm>, key: Key, data: Data, h: Ip, o: nat, l: nat) returns (fs: seq<Frag>)
    requires Holding(rp, key, data) && HeadOf(h, key, data, o, l) && Span(o, l) !! Got(rp)
    ensures Chain(fs, data, -1) && Octets(fs) == Got(rp) + Span(o, l)
    ensures Handle(rp, h, data[o..l]) == Verdict(fs, key, data, h)
    ensures !Done(fs, data) ==> Holding(Verdict(fs, key, data, h).next, key, data)
  {
    fs := InsertKeeps(FragsOf(rp), data, o, l);
    var len := if !h.mf then l else if rp == [] then 0 else rp[0].length;
    LengthAfter(FragsOf(rp), fs, data, o, l, len);
    HandleVerdict(rp, key, data, h, o, l, fs, len);
    VerdictHolds(fs, key, data, h);
  }

  lemma HandleVerdict(rp: seq<Reasm>, key: Key, data: Data, h: Ip, o: nat, l: nat, fs: seq<Frag>, len: uint16)
    requires Holding(rp, key, data) && HeadOf(h, key, data, o, l) && fs != [] && Chain(fs, data, -1)
    requires Insert(FragsOf(rp), o, l, data[o..l]) == Into(fs) && Length(fs, data, len)
    requires len == if !h.mf then l else if rp == [] then 0 else rp[0].length
    ensures Handle(rp, h, data[o..l]) == Verdict(fs, key, data, h)
  {
    HandleInto(rp, h, data[o..l], fs);
    VerdictIs(fs, key, data, h, len);
  }

  lemma VerdictHolds(fs: seq<Frag>, key: Key, data: Data, h: Ip)
    requires fs != [] && 0 < |data| < 0x1_0000 && Chain(fs, data, -1)
    ensures !Done(fs, data) ==> Holding(Verdict(fs, key, data, h).next, key, data)
  {
  }

  /** The step taken with the list `fs` of a datagram. */
  function Verdict(fs: seq<Frag>, key: Key, data: Data, h: Ip): Step
    requires |data| < 0x1_0000
  {
    if Done(fs, data) then
      Step(Complete(h.(length := Wrap16(|data| + h.HdrLen()), offset := 0, mf := false), data), [])
    else Step(Incomplete, [Reasm(key, fs, if End(fs, -1) == |data| then |data| else 0)])
  }

  lemma VerdictIs(fs: seq<Frag>, key: Key, data: Data, h: Ip, len: uint16)
    requires fs != [] && 0 < |data| < 0x1_0000 && Chain(fs, data, -1) && Length(fs, data, len)
    ensures Verdict(fs, key, data, h) ==
              if |fs| == 1 && fs[0].offset == 0 && len != 0 then
                Step(Complete(h.(length := Wrap16(len + h.HdrLen()), offset := 0, mf := false), fs[0].buf), [])
              else Step(Incomplete, [Reasm(key, fs, len)])
  {
    assert data[0..|data|] == data;
  }

  lemma LengthAfter(fs0: seq<Frag>, fs: seq<Frag>, data: Data, o: nat, l: nat, len: nat)
    requires data != [] && o < l <= |data| && Chain(fs0, data, -1) && Chain(fs, data, -1)
    requires Octets(fs) == Octets(fs0) + Span(o, l)
    requires if l == |data| then len == l else Length(fs0, data, len)
    ensures Length(fs, data, len)
  {
    EndCovers(fs0, data);
    EndCovers(fs, data);
    assert In(o, l, |data| - 1) <==> l == |data|;
  }

  /** Octets that are already there: nothing changes. */
  lemma RepeatArrival(rp: seq<Reasm>, key: Key, data: Data, h: Ip, o: nat, l: nat)
    requires Holding(rp, key, data) && HeadOf(h, key, data, o, l) && Span(o, l) <= Got(rp)
    ensures Handle(rp, h, data[o..l]) == Step(Incomplete, rp)
  {
    assert In(o, l, o) && o in Span(o, l);
    var fs := rp[0].frags;
    InsertRepeat(fs, data, o, l);
    EndCovers(fs, data);
    assert In(o, l, |data| - 1) <==> l == |data|;
  }

  /** What one arrival does: the datagram if it is whole now, else the octets are added. */
  ghost predicate Brings(rp: seq<Reasm>, key: Key, data: Data, h: Ip, o: nat, l: nat)
    requires |rp| <= 1 && o <= l <= |data| < 0x1_0000
  {
    var s := Handle(rp, h, data[o..l]);
    if Got(rp) + Span(o, l) == Span(0, |data|) then
      s == Step(Complete(h.(length := Wrap16(|data| + h.HdrLen()), offset := 0, mf := false), data), [])
    else s.outcome == Incomplete && Holding(s.next, key, data) && Got(s.next) == Got(rp) + Span(o, l)
  }

  lemma FreshBrings(rp: seq<Reasm>, key: Key, data: Data, h: Ip, o: nat, l: nat)
    requires Holding(rp, key, data) && HeadOf(h, key, data, o, l) && Span(o, l) !! Got(rp)
    ensures Brings(rp, key, data, h, o, l)
  {
    var fs := FreshArrival(rp, key, data, h, o, l);
    DoneIsFull(fs, data);
  }

  lemma RepeatBrings(rp: seq<Reasm>, key: Key, data: Data, h: Ip, o: nat, l: nat)
    requires Holding(rp, key, data) && HeadOf(h, key, data, o, l) && Span(o, l) <= Got(rp)
    ensures Brings(rp, key, data, h, o, l)
  {
    RepeatArrival(rp, key, data, h, o, l);
    assert Got(rp) + Span(o, l) == Got(rp);
    assert rp != [] by { assert In(o, l, o) && o in Span(o, l); }
    DoneIsFull(rp[0].frags, data);
  }

  /**
   The header of the octets `[o, l)` of a datagram, as they arrive: reassembly looks at no more of it,
   and what else it holds, time to live, checksum and options, may be another for each.
   */
  predicate Carries(h: Ip, data: Data, o: nat, l: nat) {
    && o < l <= |data| && h.offset == o && h.mf == (l < |data|)
    && h.length == h.HdrLen() + (l - o) && |data| + h.HdrLen() < 0x1_0000
  }

  /**
   One arrival: the outcome is the whole datagram, under the header of this fragment, exactly when it
   supplies the last missing octets; otherwise the descriptor goes on holding what has arrived.
   */
  lemma Arrival(rp: seq<Reasm>, h: Ip, data: Data, o: nat, l: nat)
    requires Holding(rp, KeyOf(h), data) && Carries(h, data, o, l)
    requires Span(o, l) <= Got(rp) || Span(o, l) !! Got(rp)
    ensures |rp| <= 1
    ensures var s := Handle(rp, h, data[o..l]);
            if Got(rp) + Span(o, l) == Span(0, |data|) then s == Step(Complete(Restored(h, data), data), [])
            else s.outcome == Incomplete && Holding(s.next, KeyOf(h), data) && Got(s.next) == Got(rp) + Span(o, l)
  {
    CarriesHead(h, data, o, l);
    if o == 0 && l == |data| {
      GotWithin(rp, KeyOf(h), data);
      assert data[o..l] == data && Got(rp) + Span(o, l) == Span(0, |data|);
    } else if Span(o, l) <= Got(rp) {
      RepeatBrings(rp, KeyOf(h), data, h, o, l);
    } else {
      FreshBrings(rp, KeyOf(h), data, h, o, l);
    }
  }

  lemma CarriesHead(h: Ip, data: Data, o: nat, l: nat)
    requires Carries(h, data, o, l)
    ensures LastOf(h) == l && (!(o == 0 && l == |data|) ==> HeadOf(h, KeyOf(h), data, o, l))
    ensures h.(length := Wrap16(|data| + h.HdrLen()), offset := 0, mf := false) == Restored(h, data)
    ensures o == 0 && l == |data| ==> h == Restored(h, data)
  {
  }

  /** The octets that complete a datagram join the entry after them, and no other, if and only if they are its first. */
  lemma PrependIff(fs: seq<Frag>, data: Data, o: nat, l: nat)
    requires Chain(fs, data, -1) && o < l <= |data| && Span(o, l) !! Octets(fs) && fs != []
    requires Octets(fs) + Span(o, l) == Span(0, |data|)
    ensures Prepends(fs, o, l, l - o) <==> o == 0
  {
    var k := NextIndex(fs, 0, o);
    Between(fs, data, o, l);
    PrependsBetween(fs, o, l, k);
    if o == 0 {
      EntryAt(fs, data, -1, 0);
      assert In(0, |data|, fs[0].offset) && In(0, |data|, l) && l in Octets(fs);
      var i := EntryOf(fs, l);
      Grows(fs, data, 0, i);
    } else {
      assert In(0, |data|, o - 1) && o - 1 in Octets(fs);
      EndsAt(fs, data, o, k);
    }
  }

  lemma PrependsBetween(fs: seq<Frag>, o: nat, l: nat, k: nat)
    requires o < l && k == NextIndex(fs, 0, o) && (k > 0 ==> fs[k - 1].last <= o) && (k < |fs| ==> l <= fs[k].offset)
    ensures Prepends(fs, o, l, l - o) <==> !(k > 0 && fs[k - 1].last == o) && k < |fs| && fs[k].offset == l
  {
  }

  /** The octet before `o` is held, but none from there up to the entry after: an entry ends at `o`. */
  lemma EndsAt(fs: seq<Frag>, data: Data, o: nat, k: nat)
    requires Chain(fs, data, -1) && o > 0 && o - 1 in Octets(fs)
    requires k == NextIndex(fs, 0, o) && (k > 0 ==> fs[k - 1].last <= o)
    ensures k > 0 && fs[k - 1].last == o
  {
    var i := EntryOf(fs, o - 1);
    if k <= i {
      Grows(fs, data, k, i);
    } else {
      Grows(fs, data, i, k - 1);
    }
  }

  /** The code as it stands stores through a null pointer exactly when the first octets complete a datagram of more. */
  lemma StoresNullIff(rp: seq<Reasm>, h: Ip, data: Data, o: nat, l: nat)
    requires Holding(rp, KeyOf(h), data) && Carries(h, data, o, l)
    requires Span(o, l) <= Got(rp) || Span(o, l) !! Got(rp)
    ensures StoresNull(rp, h, data[o..l]) <==> Got(rp) + Span(o, l) == Span(0, |data|) && o == 0 && l < |data|
  {
    CarriesHead(h, data, o, l);
    Arrival(rp, h, data, o, l);
    if !(o == 0 && l == |data|) && Got(rp) + Span(o, l) == Span(0, |data|) {
      Unfinished(rp, KeyOf(h), data, o, l);
      PrependIff(FragsOf(rp), data, o, l);
    }
  }

  /** What completes a datagram is new, and not all of it. */
  lemma Unfinished(rp: seq<Reasm>, key: Key, data: Data, o: nat, l: nat)
    requires Holding(rp, key, data) && o < l <= |data| && !(o == 0 && l == |data|)
    requires Span(o, l) <= Got(rp) || Span(o, l) !! Got(rp)
    requires Got(rp) + Span(o, l) == Span(0, |data|)
    ensures rp != [] && Span(o, l) !! Got(rp)
  {
    NotAll(o, l, |data|);
    if rp != [] {
      DoneIsFull(rp[0].frags, data);
    }
    assert Span(o, l) <= Got(rp) ==> Got(rp) + Span(o, l) == Got(rp);
  }

  lemma NotAll(o: nat, l: nat, n: nat)
    requires o < l <= n && !(o == 0 && l == n)
    ensures Span(o, l) != Span(0, n) && {} + Span(o, l) == Span(o, l)
  {
    assert In(0, n, 0) && In(0, n, n - 1) && 0 in Span(0, n) && n - 1 in Span(0, n);
  }

  lemma GotWithin(rp: seq<Reasm>, key: Key, data: Data)
    requires Holding(rp, key, data)
    ensures Got(rp) <= Span(0, |data|)
  {
    if rp != [] {
      Beyond(rp[0].frags, data, -1);
      assert forall x :: x in Got(rp) ==> In(0, |data|, x);
    }
  }

  // Tilings of a datagram by fragments

  /** The fragments are, in order, the octets `[from, to)` of the datagram, cut without gaps. */
  predicate Tiles(fl: seq<Datagram>, ip: Ip, data: Data, from: nat, to: nat)
    decreases |fl|
  {
    if fl == [] then from == to
    else
      && PieceOf(ip, data, from, from + |fl[0].data|, fl[0]) && from + |fl[0].data| <= to
      && Tiles(fl[1..], ip, data, from + |fl[0].data|, to)
  }

  function Low(f: Datagram): int { f.ip.offset }

  function High(f: Datagram): int { f.ip.offset + |f.data| }

  lemma {:induction false} TileAt(fl: seq<Datagram>, ip: Ip, data: Data, from: nat, to: nat, i: nat)
    requires Tiles(fl, ip, data, from, to) && i < |fl|
    ensures from <= Low(fl[i]) < High(fl[i]) <= to && PieceOf(ip, data, Low(fl[i]), High(fl[i]), fl[i])
    ensures i > 0 ==> High(fl[0]) <= Low(fl[i])
    decreases |fl|
  {
    if i > 0 {
      TileAt(fl[1..], ip, data, from + |fl[0].data|, to, i - 1);
    }
  }

  lemma {:induction false} TilesApart(fl: seq<Datagram>, ip: Ip, data: Data, from: nat, to: nat, i: nat, j: nat)
    requires Tiles(fl, ip, data, from, to) && i < j < |fl|
    ensures High(fl[i]) <= Low(fl[j])
    decreases i
  {
    TileAt(fl, ip, data, from, to, j);
    if i > 0 {
      TilesApart(fl[1..], ip, data, from + |fl[0].data|, to, i - 1, j - 1);
    }
  }

  lemma {:induction false} TileOf(fl: seq<Datagram>, ip: Ip, data: Data, from: nat, to: nat, x: int) returns (i: nat)
    requires Tiles(fl, ip, data, from, to) && from <= x < to
    ensures i < |fl| && Low(fl[i]) <= x < High(fl[i])
    decreases |fl|
  {
    if x < from + |fl[0].data| {
      i := 0;
    } else {
      var k := TileOf(fl[1..], ip, data, from + |fl[0].data|, to, x);
      i := k + 1;
    }
  }

  lemma HeadAgain(ip: Ip, g: Ip, o: nat, n: nat)
    requires o < 0x1_0000 && n + ip.HdrLen() < 0x1_0000 && g == ip.(length := g.length, offset := g.offset, mf := g.mf)
    ensures g.HdrLen() == ip.HdrLen() && forall m :: FragHead(g, o, n, m) == FragHead(ip, o, n, m)
  {
  }

  lemma SubSlice(d: Data, o: nat, l: nat, at: nat, n: nat)
    requires o <= l <= |d| && o + at + n <= l
    ensures d[o..l][at..at + n] == d[o + at..o + at + n]
  {
    var t := d[o..l][at..at + n];
    assert forall i :: 0 <= i < |t| ==> t[i] == d[o + at + i];
  }

  /** The fragments tile what is left of the piece `f` from its octet `at` on. */
  predicate TilesOn(fs: seq<Datagram>, ip: Ip, data: Data, f: Datagram, at: nat)
    requires f.ip.offset >= 0
  {
    Tiles(fs, ip, data, Low(f) + at, High(f))
  }

  /** What `ip_route` makes of a piece of a datagram tiles that piece: offsets, lengths, MF and all. */
  lemma {:induction false} FragmentTiles(ip: Ip, data: Data, f: Datagram, at: nat, mtu: nat)
    requires PieceOf(ip, data, Low(f), High(f), f) && at <= |f.data| && mtu >= ip.HdrLen() + 8
    requires f.ip.offset + |f.data| < 0x1_0000
    ensures TilesOn(FragmentFrom(f.ip, f.ip.offset, f.data, at, mtu), ip, data, f, at)
    decreases |f.data| - at
  {
    PieceBounds(ip, data, f);
    if at < |f.data| {
      var n := FragSize(|f.data| - at, f.ip.HdrLen(), mtu);
      SizeFits(|f.data| - at, f.ip.HdrLen(), mtu);
      FragmentTiles(ip, data, f, at + n, mtu);
      TilesStep(ip, data, f, at, mtu, n);
    }
  }

  /** One pass of the fragmentation loop: the next piece, then the rest. */
  lemma TilesStep(ip: Ip, data: Data, f: Datagram, at: nat, mtu: nat, n: nat)
    requires PieceOf(ip, data, Low(f), High(f), f) && mtu >= f.ip.HdrLen() + 8
    requires f.ip.offset + |f.data| < 0x1_0000 && |f.data| + f.ip.HdrLen() < 0x1_0000
    requires at < |f.data| && n == FragSize(|f.data| - at, f.ip.HdrLen(), mtu) && 0 < n <= |f.data| - at
    requires TilesOn(FragmentFrom(f.ip, f.ip.offset, f.data, at + n, mtu), ip, data, f, at + n)
    ensures TilesOn(FragmentFrom(f.ip, f.ip.offset, f.data, at, mtu), ip, data, f, at)
  {
    FirstFragment(f.ip, f.ip.offset, f.data, at, mtu, n);
    TilesFirst(ip, data, f, at, n, FragmentFrom(f.ip, f.ip.offset, f.data, at + n, mtu));
  }

  lemma TilesFirst(ip: Ip, data: Data, f: Datagram, at: nat, n: nat, rest: seq<Datagram>)
    requires PieceOf(ip, data, Low(f), High(f), f) && 0 < n <= |f.data| - at
    requires f.ip.offset + |f.data| < 0x1_0000 && |f.data| + f.ip.HdrLen() < 0x1_0000
    requires TilesOn(rest, ip, data, f, at + n)
    ensures TilesOn([Datagram(FragHead(f.ip, f.ip.offset + at, n, at + n < |f.data| || f.ip.mf), f.data[at..at + n])]
                    + rest, ip, data, f, at)
  {
    var head := Datagram(FragHead(f.ip, f.ip.offset + at, n, at + n < |f.data| || f.ip.mf), f.data[at..at + n]);
    PieceBounds(ip, data, f);
    PieceWithin(ip, data, f, at, n, head);
    TilesCons(head, rest, ip, data, Low(f) + at, n, High(f));
  }

  /** A piece of a piece is a piece. */
  lemma PieceWithin(ip: Ip, data: Data, f: Datagram, at: nat, n: nat, head: Datagram)
    requires PieceOf(ip, data, Low(f), High(f), f) && 0 < n <= |f.data| - at && |data| < 0x1_0000
    requires f.ip.HdrLen() == ip.HdrLen() && f.ip.offset + at < 0x1_0000
    requires head == Datagram(FragHead(f.ip, f.ip.offset + at, n, at + n < |f.data| || f.ip.mf), f.data[at..at + n])
    ensures PieceOf(ip, data, Low(f) + at, Low(f) + at + n, head)
  {
    SubSlice(data, Low(f), High(f), at, n);
    HeadAgain(ip, f.ip, Low(f) + at, n);
  }

  lemma TilesCons(f: Datagram, rest: seq<Datagram>, ip: Ip, data: Data, from: nat, n: nat, to: nat)
    requires |f.data| == n && PieceOf(ip, data, from, from + n, f) && from + n <= to
    requires Tiles(rest, ip, data, from + n, to)
    ensures Tiles([f] + rest, ip, data, from, to)
  {
    Behead(f, rest);
  }

  /** Every fragment fits the interface, and all but the last carry a multiple of eight octets. */
  lemma {:induction false} FragmentFits(ip: Ip, base: nat, data: Data, at: nat, mtu: nat)
    requires at <= |data| && mtu >= ip.HdrLen() + 8 && base + |data| < 0x1_0000 && |data| + ip.HdrLen() < 0x1_0000
    ensures AllFit(FragmentFrom(ip, base, data, at, mtu), mtu)
    ensures at < |data| ==> FragmentFrom(ip, base, data, at, mtu) != []
    decreases |data| - at
  {
    if at < |data| {
      var n := FragSize(|data| - at, ip.HdrLen(), mtu);
      SizeFits(|data| - at, ip.HdrLen(), mtu);
      FirstFragment(ip, base, data, at, mtu, n);
      FragmentFits(ip, base, data, at + n, mtu);
      Behead(Datagram(FragHead(ip, base + at, n, at + n < |data| || ip.mf), data[at..at + n]),
             FragmentFrom(ip, base, data, at + n, mtu));
    }
  }

  predicate AllFit(fl: seq<Datagram>, mtu: nat) {
    fl == [] || (Fits(fl[0], mtu, |fl| == 1) && AllFit(fl[1..], mtu))
  }

  predicate Fits(f: Datagram, mtu: nat, final: bool) {
    && f.ip.length == f.ip.HdrLen() + |f.data| <= mtu && (!final ==> |f.data| % 8 == 0)
  }

  lemma {:induction false} TilesJoin(a: seq<Datagram>, b: seq<Datagram>, ip: Ip, data: Data, from: nat, mid: nat, to: nat)
    requires Tiles(a, ip, data, from, mid) && Tiles(b, ip, data, mid, to) && mid <= to
    ensures Tiles(a + b, ip, data, from, to)
    decreases |a|
  {
    if a == [] {
      assert a + b == b;
    } else {
      assert (a + b)[1..] == a[1..] + b;
      TileAt(a, ip, data, from, mid, 0);
      TilesJoin(a[1..], b, ip, data, from + |a[0].data|, mid, to);
    }
  }

  lemma {:induction false} TilesTake(fl: seq<Datagram>, ip: Ip, data: Data, from: nat, to: nat, i: nat)
    requires Tiles(fl, ip, data, from, to) && i < |fl| && Low(fl[i]) >= 0
    ensures Tiles(fl[..i], ip, data, from, Low(fl[i]))
    decreases |fl|
  {
    TileAt(fl, ip, data, from, to, i);
    if i > 0 {
      TilesTake(fl[1..], ip, data, from + |fl[0].data|, to, i - 1);
      TilesCons(fl[0], fl[1..][..i - 1], ip, data, from, |fl[0].data|, Low(fl[i]));
      assert fl[..i] == [fl[0]] + fl[1..][..i - 1];
    }
  }

  lemma {:induction false} TilesDrop(fl: seq<Datagram>, ip: Ip, data: Data, from: nat, to: nat, i: nat)
    requires Tiles(fl, ip, data, from, to) && i < |fl| && High(fl[i]) >= 0
    ensures Tiles(fl[i + 1..], ip, data, High(fl[i]), to)
    decreases |fl|
  {
    if i > 0 {
      TilesDrop(fl[1..], ip, data, from + |fl[0].data|, to, i - 1);
      assert fl[1..][i..] == fl[i + 1..];
    }
  }

  /** A tile may be replaced by a tiling of it. */
  lemma ReplaceTile(fl: seq<Datagram>, mid: seq<Datagram>, ip: Ip, data: Data, i: nat)
    requires Tiles(fl, ip, data, 0, |data|) && i < |fl|
    requires 0 <= Low(fl[i]) && Tiles(mid, ip, data, Low(fl[i]), High(fl[i]))
    ensures Tiles(fl[..i] + mid + fl[i + 1..], ip, data, 0, |data|)
  {
    var low, high := Low(fl[i]), High(fl[i]);
    TileAt(fl, ip, data, 0, |data|, i);
    TilesTake(fl, ip, data, 0, |data|, i);
    TilesDrop(fl, ip, data, 0, |data|, i);
    TilesJoin(fl[..i], mid, ip, data, 0, low, high);
    TilesJoin(fl[..i] + mid, fl[i + 1..], ip, data, 0, high, |data|);
  }

  lemma PieceBounds(ip: Ip, data: Data, f: Datagram)
    requires PieceOf(ip, data, Low(f), High(f), f)
    ensures f.ip.HdrLen() == ip.HdrLen() && f.ip.offset + |f.data| < 0x1_0000 && |f.data| + ip.HdrLen() < 0x1_0000
  {
  }

  /** A router further on may cut any fragment again: the result still tiles the datagram. */
  lemma Refragment(fl: seq<Datagram>, ip: Ip, data: Data, i: nat, mtu: nat) returns (cut: seq<Datagram>)
    requires Tiles(fl, ip, data, 0, |data|) && i < |fl| && mtu >= ip.HdrLen() + 8
    ensures fl[i].ip.HdrLen() == ip.HdrLen() && fl[i].ip.offset + |fl[i].data| < 0x1_0000
    ensures |fl[i].data| + fl[i].ip.HdrLen() < 0x1_0000
    ensures cut == FragmentFrom(fl[i].ip, fl[i].ip.offset, fl[i].data, 0, mtu)
    ensures Tiles(fl[..i] + cut + fl[i + 1..], ip, data, 0, |data|)
  {
    TileAt(fl, ip, data, 0, |data|, i);
    PieceBounds(ip, data, fl[i]);
    cut := FragmentFrom(fl[i].ip, fl[i].ip.offset, fl[i].data, 0, mtu);
    FragmentTiles(ip, data, fl[i], 0, mtu);
    ReplaceTile(fl, cut, ip, data, i);
  }

  // Whole histories

  /**
   What can happen to one datagram's descriptor: a fragment, under the header it has when it arrives,
   a timeout, traffic of other datagrams.
   */
  datatype Event = Piece(i: nat, h: Ip) | Expiry | Unrelated

  /** The fragment `f` may arrive under the header `h`, routers having changed what they change. */
  predicate Arrives(f: Datagram, h: Ip, data: Data) {
    && KeyOf(h) == KeyOf(f.ip) && h.offset == f.ip.offset && h.mf == f.ip.mf
    && h.length == h.HdrLen() + |f.data| && |data| + h.HdrLen() < 0x1_0000
  }

  predicate Under(n: nat, i: nat) { i < n }

  function All(n: nat): set<nat> { set i: nat | 0 <= i < n && Under(n, i) }

  /** The fragments that have arrived since the datagram was last completed or dropped. */
  function Arrived(events: seq<Event>, n: nat): set<nat>
    decreases |events|
  {
    if events == [] then {}
    else
      var before := Arrived(events[..|events| - 1], n);
      match events[|events| - 1]
      case Piece(i, _) => if before + {i} == All(n) then {} else before + {i}
      case Expiry => {}
      case Unrelated => before
  }

  /** The datagram's descriptor after the same events, by `fraghandle` and `ip_timeout`. */
  function Descriptor(events: seq<Event>, fl: seq<Datagram>): (rp: seq<Reasm>)
    ensures |rp| <= 1
    decreases |events|
  {
    if events == [] then []
    else
      var before := Descriptor(events[..|events| - 1], fl);
      match events[|events| - 1]
      case Piece(i, h) => if i < |fl| then Handle(before, h, fl[i].data).next else before
      case Expiry => []
      case Unrelated => before
  }

  ghost predicate Valid(events: seq<Event>, fl: seq<Datagram>, data: Data) {
    forall k :: 0 <= k < |events| && events[k].Piece? ==> events[k].i < |fl| && Arrives(fl[events[k].i], events[k].h, data)
  }

  predicate InTile(fl: seq<Datagram>, i: nat, x: int) { i < |fl| && Low(fl[i]) <= x < High(fl[i]) }

  /** The octets of the fragments whose indices are in `s`. */
  ghost predicate OctetsOf(fl: seq<Datagram>, s: set<nat>, have: set<int>) {
    forall x :: x in have <==> exists i :: i in s && InTile(fl, i, x)
  }

  lemma SameTile(fl: seq<Datagram>, ip: Ip, data: Data, i: nat, j: nat, x: int)
    requires Tiles(fl, ip, data, 0, |data|) && InTile(fl, i, x) && InTile(fl, j, x)
    ensures i == j
  {
    if i < j {
      TilesApart(fl, ip, data, 0, |data|, i, j);
    } else if j < i {
      TilesApart(fl, ip, data, 0, |data|, j, i);
    }
  }

  lemma PieceFits(fl: seq<Datagram>, ip: Ip, data: Data, s: set<nat>, have: set<int>, i: nat)
    requires Tiles(fl, ip, data, 0, |data|) && s <= All(|fl|) && OctetsOf(fl, s, have) && i < |fl|
    ensures i in s ==> Span(Low(fl[i]), High(fl[i])) <= have
    ensures i !in s ==> Span(Low(fl[i]), High(fl[i])) !! have
    ensures OctetsOf(fl, s + {i}, have + Span(Low(fl[i]), High(fl[i])))
  {
    var now := have + Span(Low(fl[i]), High(fl[i]));
    assert forall x :: InTile(fl, i, x) <==> x in Span(Low(fl[i]), High(fl[i]))
      by { assert forall x :: InTile(fl, i, x) <==> In(Low(fl[i]), High(fl[i]), x); }
    if i !in s {
      forall x, j | j in s && InTile(fl, j, x) ensures !InTile(fl, i, x) {
        if InTile(fl, i, x) {
          SameTile(fl, ip, data, i, j, x);
        }
      }
    }
    forall x ensures x in now <==> exists j :: j in s + {i} && InTile(fl, j, x) {
      if x in now && x !in have {
        assert i in s + {i} && InTile(fl, i, x);
      } else if x in have {
        var j :| j in s && InTile(fl, j, x);
        assert j in s + {i};
      }
    }
  }

  /** All octets are there exactly when all fragments are. */
  lemma AllOctets(fl: seq<Datagram>, ip: Ip, data: Data, s: set<nat>, have: set<int>)
    requires Tiles(fl, ip, data, 0, |data|) && s <= All(|fl|) && OctetsOf(fl, s, have)
    ensures have == Span(0, |data|) <==> s == All(|fl|)
  {
    if s == All(|fl|) {
      forall x ensures x in have <==> x in Span(0, |data|) {
        if In(0, |data|, x) {
          var i := TileOf(fl, ip, data, 0, |data|, x);
          assert i in s && InTile(fl, i, x);
        } else if x in have {
          var i :| i in s && InTile(fl, i, x);
          TileAt(fl, ip, data, 0, |data|, i);
        }
      }
    }
    if have == Span(0, |data|) {
      forall i: nat | i in All(|fl|) ensures i in s {
        TileAt(fl, ip, data, 0, |data|, i);
        assert In(0, |data|, Low(fl[i])) && Low(fl[i]) in have;
        var j :| j in s && InTile(fl, j, Low(fl[i]));
        SameTile(fl, ip, data, i, j, Low(fl[i]));
      }
    }
  }

  /** The descriptor holds exactly the fragments that have arrived. */
  ghost predicate InStep(fl: seq<Datagram>, ip: Ip, data: Data, s: set<nat>, rp: seq<Reasm>) {
    && s < All(|fl|) && Holding(rp, KeyOf(ip), data) && OctetsOf(fl, s, Got(rp))
  }

  lemma PieceCarries(fl: seq<Datagram>, ip: Ip, data: Data, i: nat, h: Ip)
    requires Tiles(fl, ip, data, 0, |data|) && i < |fl| && Arrives(fl[i], h, data)
    ensures KeyOf(h) == KeyOf(ip) && 0 <= Low(fl[i]) < High(fl[i]) <= |data|
    ensures Carries(h, data, Low(fl[i]), High(fl[i])) && fl[i].data == data[Low(fl[i])..High(fl[i])]
  {
    TileAt(fl, ip, data, 0, |data|, i);
  }

  lemma PieceStep(fl: seq<Datagram>, ip: Ip, data: Data, s: set<nat>, rp: seq<Reasm>, i: nat, h: Ip)
    requires Tiles(fl, ip, data, 0, |data|) && InStep(fl, ip, data, s, rp) && i < |fl| && Arrives(fl[i], h, data)
    ensures |rp| <= 1
    ensures var t := Handle(rp, h, fl[i].data);
            if s + {i} == All(|fl|) then t == Step(Complete(Restored(h, data), data), [])
            else t.outcome == Incomplete && InStep(fl, ip, data, s + {i}, t.next)
  {
    PieceCarries(fl, ip, data, i, h);
    PieceFits(fl, ip, data, s, Got(rp), i);
    Arrival(rp, h, data, Low(fl[i]), High(fl[i]));
    AllOctets(fl, ip, data, s + {i}, Got(rp) + Span(Low(fl[i]), High(fl[i])));
  }

  lemma {:induction false} History(fl: seq<Datagram>, ip: Ip, data: Data, events: seq<Event>)
    requires Tiles(fl, ip, data, 0, |data|) && 0 < |data| < 0x1_0000 && Valid(events, fl, data)
    ensures InStep(fl, ip, data, Arrived(events, |fl|), Descriptor(events, fl))
    decreases |events|
  {
    if events == [] {
      assert 0 in All(|fl|);
    } else {
      var earlier := events[..|events| - 1];
      History(fl, ip, data, earlier);
      match events[|events| - 1]
      case Piece(i, h) =>
        PieceStep(fl, ip, data, Arrived(earlier, |fl|), Descriptor(earlier, fl), i, h);
        assert 0 in All(|fl|);
      case Expiry => assert 0 in All(|fl|);
      case Unrelated =>
    }
  }

  /**
   Reassembly. Let a datagram be cut by `ip_route`, and its pieces possibly cut again. Feed the
   pieces to `fraghandle` in any order, with any repetitions, timeouts and foreign traffic, each
   under the header its way has left it with: a piece completes the datagram exactly when all
   pieces have arrived since it was last completed or dropped, and then the original octets come
   back, under the original header but for what the way of this last piece has changed.
   */
  lemma FragmentThenReassemble(fl: seq<Datagram>, ip: Ip, data: Data, events: seq<Event>, i: nat, h: Ip)
    requires Tiles(fl, ip, data, 0, |data|) && data != [] && Valid(events, fl, data)
    requires i < |fl| && Arrives(fl[i], h, data)
    ensures |data| + ip.HdrLen() < 0x1_0000
    ensures Handle(Descriptor(events, fl), h, fl[i].data).outcome ==
              if Arrived(events, |fl|) + {i} == All(|fl|) then Complete(Restored(h, data), data) else Incomplete
    ensures h == fl[i].ip.(ttl := h.ttl, checksum := h.checksum) ==>
              Restored(h, data) == Restored(ip, data).(ttl := h.ttl, checksum := h.checksum)
    ensures ip.offset == 0 && !ip.mf && ip.length == ip.HdrLen() + |data| ==> Restored(ip, data) == ip
  {
    History(fl, ip, data, events);
    PieceStep(fl, ip, data, Arrived(events, |fl|), Descriptor(events, fl), i, h);
    RestoredHead(fl, ip, data, i, h);
  }

  lemma RestoredHead(fl: seq<Datagram>, ip: Ip, data: Data, i: nat, h: Ip)
    requires Tiles(fl, ip, data, 0, |data|) && i < |fl| && Arrives(fl[i], h, data)
    ensures |data| + ip.HdrLen() < 0x1_0000
    ensures h == fl[i].ip.(ttl := h.ttl, checksum := h.checksum) ==>
              Restored(h, data) == Restored(ip, data).(ttl := h.ttl, checksum := h.checksum)
  {
    TileAt(fl, ip, data, 0, |data|, i);
  }

  /**
   The code as it stands, over the same histories: the piece that completes the datagram leads to a
   store through a null pointer if and only if it is the first of several.
   */
  lemma FirstPieceLast(fl: seq<Datagram>, ip: Ip, data: Data, events: seq<Event>, i: nat, h: Ip)
    requires Tiles(fl, ip, data, 0, |data|) && data != [] && Valid(events, fl, data)
    requires i < |fl| && Arrives(fl[i], h, data)
    ensures StoresNull(Descriptor(events, fl), h, fl[i].data) <==>
            Arrived(events, |fl|) + {i} == All(|fl|) && i == 0 && |fl| > 1
  {
    var s, rp := Arrived(events, |fl|), Descriptor(events, fl);
    History(fl, ip, data, events);
    PieceCarries(fl, ip, data, i, h);
    PieceFits(fl, ip, data, s, Got(rp), i);
    AllOctets(fl, ip, data, s + {i}, Got(rp) + Span(Low(fl[i]), High(fl[i])));
    StoresNullIff(rp, h, data, Low(fl[i]), High(fl[i]));
    FirstOfSeveral(fl, ip, data, i);
  }

  lemma FirstOfSeveral(fl: seq<Datagram>, ip: Ip, data: Data, i: nat)
    requires Tiles(fl, ip, data, 0, |data|) && i < |fl|
    ensures Low(fl[i]) == 0 && High(fl[i]) < |data| <==> i == 0 && |fl| > 1
  {
    TileAt(fl, ip, data, 0, |data|, i);
    TileAt(fl, ip, data, 0, |data|, 0);
    if i == 0 && |fl| > 1 {
      TileAt(fl, ip, data, 0, |data|, 1);
    }
    if |fl| == 1 {
      assert fl[1..] == [];
    }
  }

  /** The pieces `ip_route` makes of a whole datagram are such a tiling. */
  lemma RouteTiles(ip: Ip, data: Data, mtu: nat)
    requires ip.offset == 0 && !ip.mf && data != [] && mtu >= ip.HdrLen() + 8 && |data| + ip.HdrLen() < 0x1_0000
    ensures Tiles(FragmentFrom(ip, 0, data, 0, mtu), ip, data, 0, |data|)
    ensures AllFit(FragmentFrom(ip, 0, data, 0, mtu), mtu)
  {
    var f := Datagram(FragHead(ip, 0, |data|, false), data);
    assert data[0..|data|] == data && PieceOf(ip, data, 0, |data|, f);
    FragmentTiles(ip, data, f, 0, mtu);
    SameFragments(ip, f.ip, 0, data, 0, mtu);
    FragmentFits(ip, 0, data, 0, mtu);
  }

  /** Fragmentation does not look at the length field it replaces. */
  lemma {:induction false} SameFragments(ip: Ip, g: Ip, base: nat, data: Data, at: nat, mtu: nat)
    requires g == ip.(length := g.length) && at <= |data| && mtu >= ip.HdrLen() + 8
    requires base + |data| < 0x1_0000 && |data| + ip.HdrLen() < 0x1_0000
    ensures FragmentFrom(ip, base, data, at, mtu) == FragmentFrom(g, base, data, at, mtu)
    decreases |data| - at
  {
    if at < |data| {
      var n := FragSize(|data| - at, ip.HdrLen(), mtu);
      HeadAgain(ip, g, base + at, n);
      SameFragments(ip, g, base, data, at + n, mtu);
    }
  }
}
