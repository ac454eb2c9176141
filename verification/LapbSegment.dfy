module LapbSegment {
  // The segmentation sublayer on top of the link: `segmenter` cuts a packet (its PID first) into
  // numbered I-fields, `procdata` puts it together again, and `send_ax25` cuts a stream.

  import opened Bytes
  import opened LapbSpec
  import LapbFrame
  import LapbLocal
  import opened LapbLink
  import opened Lists

  const SEG_FIRST := 0x80

  /** The header octet of a segment with `remain` more to come. */
  function SegHeader(first: bool, remain: nat): byte {
    remain % 128 + (if first || remain / 128 % 2 == 1 then SEG_FIRST else 0)
  }

  /** The loop of `segmenter` from `offset`, with `n` segments of at most `ss` octets to go. */
  function CutFrom(p: Data, offset: nat, ss: nat, n: nat): seq<Data>
    requires offset <= |p|
    decreases n
  {
    if n == 0 then []
    else
      var next := Min(offset + ss, |p|);
      [[PID_SEGMENT, SegHeader(next == ss, n - 1)] + p[offset..next]] + CutFrom(p, next, ss, n - 1)
  }

  function SegmentCount(len: nat, ssize: nat): nat
    requires ssize > 2
  {
    1 + (len - 1) / (ssize - 2)
  }

  function Segment(p: Data, ssize: nat): seq<Data>
    requires ssize > 2 && p != []
  {
    if |p| <= ssize + 1 then [p] else CutFrom(p, 0, ssize - 2, SegmentCount(|p|, ssize))
  }

  /** `segmenter` */
  method Segmenter(p: Data, ssize: nat) returns (result: seq<Data>)
    requires ssize > 2 && p != []
    ensures result == Segment(p, ssize)
  {
    var len := |p|;
    if len <= ssize + 1 {
      return [p];
    }
    var ss := ssize - 2;
    var segments := SegmentCount(len, ssize);
    var offset := 0;
    result := [];
    while segments != 0
      invariant 0 <= offset <= |p| && segments >= 0
      invariant result + CutFrom(p, offset, ss, segments) == Segment(p, ssize)
      decreases segments
    {
      var next := Min(offset + ss, len);
      var field := [PID_SEGMENT, SegHeader(next == ss, segments - 1)] + p[offset..next];
      Assoc(result, [field], CutFrom(p, next, ss, segments - 1));
      offset := next;
      segments := segments - 1;
      result := result + [field];
    }
  }

  /** `procdata` over a run of I-fields. */
  function Absorb(a: Assembler, fields: seq<Data>): Assembler
    decreases |fields|
  {
    if fields == [] then a else Absorb(ProcData(a, fields[0]), fields[1..])
  }

  lemma {:induction false} AbsorbConcat(a: Assembler, f: seq<Data>, g: seq<Data>)
    ensures Absorb(a, f + g) == Absorb(Absorb(a, f), g)
    decreases |f|
  {
    if f == [] {
      assert f + g == g;
    } else {
      assert (f + g)[1..] == f[1..] + g;
      AbsorbConcat(ProcData(a, f[0]), f[1..], g);
    }
  }

  predicate Idle(a: Assembler) { a.segremain == 0 && a.rxasm == [] }

  /** `n` pieces of at most `ss` octets, none of them empty, cover exactly what follows `offset`. */
  predicate Covers(len: nat, offset: nat, ss: nat, n: nat)
    decreases n
  {
    if n == 0 then false
    else if n == 1 then offset < len <= offset + ss
    else offset + ss < len && Covers(len, offset + ss, ss, n - 1)
  }

  lemma {:induction false} CountCovers(len: nat, offset: nat, ss: nat)
    requires ss > 0 && offset < len
    ensures Covers(len, offset, ss, 1 + (len - offset - 1) / ss)
    decreases len - offset
  {
    var q := (len - offset - 1) / ss;
    if len <= offset + ss {
      assert q == 0;
    } else {
      DivStep(len - offset - 1, ss);
      CountCovers(len, offset + ss, ss);
    }
  }

  lemma DivStep(x: int, d: int)
    requires 0 < d <= x
    ensures x / d == (x - d) / d + 1 && (x - d) / d >= 0
  {
    var q, r := (x - d) / d, (x - d) % d;
    assert x == (q + 1) * d + r;
    DivIs(x, d, q + 1, r);
  }

  lemma OneField(a: Assembler, field: Data, rest: seq<Data>)
    ensures Absorb(a, [field] + rest) == Absorb(ProcData(a, field), rest)
  {
    Behead(field, rest);
  }

  /** A segment in order extends what is being put together, behind octets `q` that were there, and the last completes it. */
  lemma NextSegment(a: Assembler, q: Data, p: Data, offset: nat, next: nat, first: bool)
    requires p != [] && offset < next <= |p| && 0 < a.segremain <= 127 && a.rxasm == q + p[..offset]
    ensures var r := ProcData(a, [PID_SEGMENT, SegHeader(first, a.segremain - 1)] + p[offset..next]);
            r == if a.segremain > 1 then a.(segremain := a.segremain - 1, rxasm := q + p[..next])
                 else HandleIt(a.(segremain := 0, rxasm := []), PullChar(q + p[..next]).0, PullChar(q + p[..next]).1)
  {
    FieldParts(PID_SEGMENT, SegHeader(first, a.segremain - 1), p[offset..next]);
    assert q + p[..offset] + p[offset..next] == q + p[..next];
  }

  /** In the middle of a packet: `n` segments missing, the octets before `offset` held, behind `q`. */
  lemma {:induction false} AbsorbRest(a: Assembler, q: Data, p: Data, offset: nat, ss: nat, n: nat)
    requires p != [] && offset <= |p| && 0 < ss && 0 < n <= 127 && Covers(|p|, offset, ss, n)
    requires a.segremain == n && a.rxasm == q + p[..offset]
    ensures Absorb(a, CutFrom(p, offset, ss, n)) == HandleIt(a.(segremain := 0, rxasm := []), (q + p)[0], (q + p)[1..])
    decreases n
  {
    var next := Min(offset + ss, |p|);
    var field := [PID_SEGMENT, SegHeader(next == ss, n - 1)] + p[offset..next];
    NextSegment(a, q, p, offset, next, next == ss);
    OneField(a, field, CutFrom(p, next, ss, n - 1));
    if n == 1 {
      assert p[..next] == p;
    } else {
      AbsorbRest(ProcData(a, field), q, p, next, ss, n - 1);
    }
  }

  lemma FieldParts(pid: byte, h: byte, d: Data)
    ensures var f := [pid, h] + d;
            PullChar(f) == (pid as int, [h] + d) && PullChar([h] + d) == (h as int, d)
  {
    assert [pid, h] + d == [pid] + ([h] + d);
    Behead(pid, [h] + d);
    Behead(h, d);
  }

  /** Cutting a packet and absorbing the pieces hands exactly that packet upstairs, once. */
  lemma SegmentAbsorb(a: Assembler, p: Data, ssize: nat)
    requires Idle(a) && ssize > 2 && p != [] && p[0] != PID_SEGMENT && SegmentCount(|p|, ssize) <= 128
    ensures Absorb(a, Segment(p, ssize)) == HandleIt(a, p[0], p[1..])
  {
    if |p| <= ssize + 1 {
      OneField(a, p, []);
      assert [p] + [] == [p];
    } else {
      CountCovers(|p|, 0, ssize - 2);
      CutAbsorb(a, p, ssize - 2, SegmentCount(|p|, ssize));
    }
  }

  lemma CutAbsorb(a: Assembler, p: Data, ss: nat, n: nat)
    requires a.segremain == 0 && p != [] && p[0] != PID_SEGMENT && n <= 128 && 0 < ss < |p| && Covers(|p|, 0, ss, n)
    ensures Absorb(a, CutFrom(p, 0, ss, n)) == HandleIt(a.(rxasm := []), p[0], p[1..])
  {
    FirstSegment(a, p, ss, n - 1);
    OneField(a, [PID_SEGMENT, SegHeader(true, n - 1)] + p[0..ss], CutFrom(p, ss, ss, n - 1));
    assert [] + p[..ss] == p[..ss] && [] + p == p;
    AbsorbRest(a.(segremain := n - 1, rxasm := p[..ss]), [], p, ss, ss, n - 1);
  }

  /** The first segment starts the assembler, which now waits for `left` more. */
  lemma FirstSegment(a: Assembler, p: Data, ss: nat, left: nat)
    requires a.segremain == 0 && ss <= |p| && left <= 127
    ensures ProcData(a, [PID_SEGMENT, SegHeader(true, left)] + p[0..ss]) == a.(segremain := left, rxasm := p[..ss])
  {
    FieldParts(PID_SEGMENT, SegHeader(true, left), p[0..ss]);
    assert p[0..ss] == p[..ss];
  }

  // A packet that was not finished

  /** Nothing clears the reassembler when a link comes up, is reset or is asked for. */
  lemma UpKeepsAssembler(c: Cb, f: LapbFrame.Frame, e: Env, mode: Mode, window: nat)
    requires f.ctl.U?
    ensures Dispatch(c, f, e).asm == c.asm && Open(c, mode, window).asm == c.asm
  {
  }

  /** Segments other than the first are dropped while none is waited for. */
  lemma {:induction false} RestIgnored(a: Assembler, p: Data, offset: nat, ss: nat, n: nat)
    requires a.segremain == 0 && 0 < ss <= offset <= |p| && n <= 128 && (n > 0 ==> Covers(|p|, offset, ss, n))
    ensures Absorb(a, CutFrom(p, offset, ss, n)) == a
    decreases n
  {
    if n > 0 {
      var next := Min(offset + ss, |p|);
      var field := [PID_SEGMENT, SegHeader(false, n - 1)] + p[offset..next];
      LaterIgnored(a, n - 1, p[offset..next]);
      OneField(a, field, CutFrom(p, next, ss, n - 1));
      RestIgnored(a, p, next, ss, n - 1);
    }
  }

  lemma LaterIgnored(a: Assembler, left: nat, d: Data)
    requires a.segremain == 0 && left <= 127
    ensures ProcData(a, [PID_SEGMENT, SegHeader(false, left)] + d) == a
  {
    FieldParts(PID_SEGMENT, SegHeader(false, left), d);
  }

  /** A packet cut in as many segments as are waited for of another goes behind the octets of that one. */
  lemma CutFinishes(a: Assembler, p: Data, ss: nat, n: nat)
    requires 0 < a.segremain == n <= 127 && p != [] && 0 < ss < |p| && Covers(|p|, 0, ss, n)
    ensures Absorb(a, CutFrom(p, 0, ss, n)) ==
            HandleIt(a.(segremain := 0, rxasm := []), (a.rxasm + p)[0], (a.rxasm + p)[1..])
  {
    assert p[..0] == [] && a.rxasm + [] == a.rxasm;
    AbsorbRest(a, a.rxasm, p, 0, ss, n);
  }

  lemma FirstRefused(a: Assembler, p: Data, ss: nat, left: nat)
    requires 0 < a.segremain != left + 1 && ss <= |p| && left <= 127
    ensures ProcData(a, [PID_SEGMENT, SegHeader(true, left)] + p[0..ss]) == a.(segremain := 0, rxasm := [])
  {
    FieldParts(PID_SEGMENT, SegHeader(true, left), p[0..ss]);
  }

  /** One cut in another number of segments is lost, and so are the octets that were there. */
  lemma CutRefused(a: Assembler, p: Data, ss: nat, n: nat)
    requires 0 < a.segremain != n && p != [] && 0 < n <= 128 && 0 < ss < |p| && Covers(|p|, 0, ss, n)
    ensures Absorb(a, CutFrom(p, 0, ss, n)) == a.(segremain := 0, rxasm := [])
  {
    FirstRefused(a, p, ss, n - 1);
    OneField(a, [PID_SEGMENT, SegHeader(true, n - 1)] + p[0..ss], CutFrom(p, ss, ss, n - 1));
    RestIgnored(a.(segremain := 0, rxasm := []), p, ss, ss, n - 1);
  }

  /**
   The next packet is handed up as it was sent if and only if no reassembly was left unfinished; or it
   had no octets yet, and waits for as many segments as this packet has.
   */
  lemma NextPacketIff(a: Assembler, p: Data, ssize: nat)
    requires ssize > 2 && p != [] && p[0] != PID_SEGMENT && SegmentCount(|p|, ssize) <= 128 && a.segremain <= 127
    ensures Absorb(a, Segment(p, ssize)).upcalls == a.upcalls + [Upcall(p[0], p[1..])] <==>
            a.segremain == 0 || (a.rxasm == [] && |p| > ssize + 1 && a.segremain == SegmentCount(|p|, ssize))
  {
    if |p| <= ssize + 1 {
      OneField(a, p, []);
      assert [p] + [] == [p];
    } else {
      var n := SegmentCount(|p|, ssize);
      CountCovers(|p|, 0, ssize - 2);
      if a.segremain == 0 {
        CutAbsorb(a, p, ssize - 2, n);
      } else {
        SameCall(a.upcalls, a.rxasm, p);
        if a.segremain == n {
          CutFinishes(a, p, ssize - 2, n);
        } else {
          CutRefused(a, p, ssize - 2, n);
        }
      }
    }
  }

  lemma SameCall(u: seq<Upcall>, q: Data, p: Data)
    requires p != []
    ensures u + [Upcall((q + p)[0], (q + p)[1..])] == u + [Upcall(p[0], p[1..])] <==> q == []
    ensures u != u + [Upcall(p[0], p[1..])]
  {
    var x, y := Upcall((q + p)[0], (q + p)[1..]), Upcall(p[0], p[1..]);
    assert (u + [x])[|u|] == x && (u + [y])[|u|] == y;
    assert |x.data| == |q| + |y.data|;
    assert q == [] ==> q + p == p;
  }

  // Sizes

  lemma {:induction false} CutSizes(p: Data, offset: nat, ss: nat, n: nat)
    requires offset <= |p|
    ensures |CutFrom(p, offset, ss, n)| == n
    ensures forall i :: 0 <= i < n ==> 2 <= |CutFrom(p, offset, ss, n)[i]| <= ss + 2
    decreases n
  {
    if n != 0 {
      CutSizes(p, Min(offset + ss, |p|), ss, n - 1);
    }
  }

  /**
   An I-field never exceeds the segment size by more than the one octet of grace, and it does
   so exactly when the packet, PID included, is one octet over: then it travels unsegmented.
   */
  lemma SegmentSizes(p: Data, ssize: nat)
    requires ssize > 2 && p != []
    ensures forall i :: 0 <= i < |Segment(p, ssize)| ==> 0 < |Segment(p, ssize)[i]| <= ssize + 1
    ensures (forall i :: 0 <= i < |Segment(p, ssize)| ==> |Segment(p, ssize)[i]| <= ssize) <==> |p| != ssize + 1
  {
    if |p| > ssize + 1 {
      CutSizes(p, 0, ssize - 2, SegmentCount(|p|, ssize));
    } else {
      assert Segment(p, ssize)[0] == p;
    }
  }

  // Streams

  function Chunks(pid: byte, fields: seq<Data>): seq<Upcall> {
    seq(|fields|, i requires 0 <= i < |fields| => Upcall(pid, if fields[i] == [] then [] else fields[i][1..]))
  }

  function Joined(ups: seq<Upcall>): Data {
    if ups == [] then [] else ups[0].data + Joined(ups[1..])
  }

  /** The chunks of a stream join to the stream, and none is longer than `paclen`. */
  lemma {:induction false} StreamWhole(pid: byte, d: Data, paclen: nat)
    requires paclen > 0
    ensures var f := Packetize(pid, d, paclen);
            && Joined(Chunks(pid, f)) == d && (forall i :: 0 <= i < |f| ==> 0 < |f[i]| <= paclen + 1)
    decreases |d|
  {
    if d != [] {
      var n := Min(|d|, paclen);
      var rest := Packetize(pid, d[n..], paclen);
      StreamWhole(pid, d[n..], paclen);
      ChunksStep(pid, d[..n], rest);
      Behead(Upcall(pid, d[..n]), Chunks(pid, rest));
      assert d[..n] + d[n..] == d;
    }
  }

  lemma ChunksStep(pid: byte, d: Data, rest: seq<Data>)
    ensures Chunks(pid, [[pid] + d] + rest) == [Upcall(pid, d)] + Chunks(pid, rest)
  {
    Behead(pid, d);
  }

  /** Each chunk of a stream goes upstairs under its PID. */
  lemma {:induction false} StreamAbsorb(a: Assembler, pid: byte, d: Data, paclen: nat)
    requires Idle(a) && paclen > 0 && pid != PID_SEGMENT
    ensures var f := Packetize(pid, d, paclen);
            Idle(Absorb(a, f)) && Absorb(a, f).upcalls == a.upcalls + Chunks(pid, f)
    decreases |d|
  {
    if d != [] {
      var n := Min(|d|, paclen);
      var rest := Packetize(pid, d[n..], paclen);
      Behead(pid, d[..n]);
      OneField(a, [pid] + d[..n], rest);
      StreamAbsorb(ProcData(a, [pid] + d[..n]), pid, d[n..], paclen);
      ChunksStep(pid, d[..n], rest);
      Assoc(a.upcalls, [Upcall(pid, d[..n])], Chunks(pid, rest));
    } else {
      assert a.upcalls + Chunks(pid, []) == a.upcalls;
    }
  }

  // What one user sends and the other user is handed

  datatype Send = Packet(p: Data) | Stream(pid: byte, d: Data)

  ghost predicate Sendable(s: Send, paclen: nat) {
    && paclen > 2
    && match s
       case Packet(p) => p != [] && p[0] != PID_SEGMENT && SegmentCount(|p|, paclen) <= 128
       case Stream(pid, _) => pid != PID_SEGMENT
  }

  /** The I-fields of a send: `axui_send` through `segmenter`, or the stream mode of `send_ax25`. */
  ghost function FieldsOf(s: Send, paclen: nat): seq<Data>
    requires Sendable(s, paclen)
  {
    match s
    case Packet(p) => Segment(p, paclen)
    case Stream(pid, d) => Packetize(pid, d, paclen)
  }

  ghost function UpcallsOf(s: Send, paclen: nat): seq<Upcall>
    requires Sendable(s, paclen)
  {
    match s
    case Packet(p) => [Upcall(p[0], p[1..])]
    case Stream(pid, d) => Chunks(pid, Packetize(pid, d, paclen))
  }

  ghost predicate AllSendable(sends: seq<Send>, paclen: nat) {
    forall i :: 0 <= i < |sends| ==> Sendable(sends[i], paclen)
  }

  ghost function AllFields(sends: seq<Send>, paclen: nat): seq<Data>
    requires AllSendable(sends, paclen)
  {
    if sends == [] then [] else FieldsOf(sends[0], paclen) + AllFields(sends[1..], paclen)
  }

  ghost function AllUpcalls(sends: seq<Send>, paclen: nat): seq<Upcall>
    requires AllSendable(sends, paclen)
  {
    if sends == [] then [] else UpcallsOf(sends[0], paclen) + AllUpcalls(sends[1..], paclen)
  }

  lemma SendAbsorb(a: Assembler, s: Send, paclen: nat)
    requires Idle(a) && Sendable(s, paclen)
    ensures var r := Absorb(a, FieldsOf(s, paclen));
            Idle(r) && r.upcalls == a.upcalls + UpcallsOf(s, paclen)
  {
    match s
    case Packet(p) => SegmentAbsorb(a, p, paclen);
    case Stream(pid, d) => StreamAbsorb(a, pid, d, paclen);
  }

  lemma {:induction false} AllAbsorb(a: Assembler, sends: seq<Send>, paclen: nat)
    requires Idle(a) && AllSendable(sends, paclen)
    ensures var r := Absorb(a, AllFields(sends, paclen));
            Idle(r) && r.upcalls == a.upcalls + AllUpcalls(sends, paclen)
    decreases |sends|
  {
    if sends == [] {
      assert a.upcalls + [] == a.upcalls;
    } else {
      var f := FieldsOf(sends[0], paclen);
      SendAbsorb(a, sends[0], paclen);
      AbsorbConcat(a, f, AllFields(sends[1..], paclen));
      AllAbsorb(Absorb(a, f), sends[1..], paclen);
      Assoc(a.upcalls, UpcallsOf(sends[0], paclen), AllUpcalls(sends[1..], paclen));
    }
  }

  /** Absorbing more never takes back a call that was made. */
  lemma {:induction false} AbsorbGrows(a: Assembler, f: seq<Data>)
    ensures a.upcalls <= Absorb(a, f).upcalls
    decreases |f|
  {
    if f != [] {
      AbsorbGrows(ProcData(a, f[0]), f[1..]);
    }
  }

  lemma AbsorbPrefix(a: Assembler, f: seq<Data>, g: seq<Data>)
    requires f <= g
    ensures Absorb(a, f).upcalls <= Absorb(a, g).upcalls
  {
    assert g == f + g[|f|..];
    AbsorbConcat(a, f, g[|f|..]);
    AbsorbGrows(Absorb(a, f), g[|f|..]);
  }

  // Along the runs of a link

  /** The assembler apart from the octets the user has yet to read. */
  function View(a: Assembler): Assembler { a.(rxq := []) }

  lemma ProcDataView(a: Assembler, d: Data)
    ensures View(ProcData(a, d)) == View(ProcData(View(a), d))
  {
  }

  lemma {:induction false} AbsorbView(a: Assembler, f: seq<Data>)
    ensures View(Absorb(a, f)) == View(Absorb(View(a), f))
    decreases |f|
  {
    if f != [] {
      ProcDataView(a, f[0]);
      AbsorbView(ProcData(a, f[0]), f[1..]);
      AbsorbView(ProcData(View(a), f[0]), f[1..]);
    }
  }

  /** The assembler has seen exactly the accepted I-fields. */
  ghost predicate Digested(start: Assembler, c: Cb) {
    View(c.asm) == View(Absorb(start, c.hist.accepted))
  }

  lemma DigestOne(start: Assembler, c: Cb, r: Cb, d: Data)
    requires Digested(start, c)
    requires r.hist.accepted == c.hist.accepted + [d] && r.asm == ProcData(c.asm, d)
    ensures Digested(start, r)
  {
    var mid := Absorb(start, c.hist.accepted);
    AbsorbConcat(start, c.hist.accepted, [d]);
    assert Absorb(mid, [d]) == ProcData(mid, d) by { assert Absorb(ProcData(mid, d), [d][1..]) == ProcData(mid, d); }
    ProcDataView(c.asm, d);
    ProcDataView(mid, d);
  }

  /** What the user at an endpoint offers the link in one event. */
  function Offer(ev: Event, paclen: nat): seq<Data> {
    match ev
    case SendQueue(fields, _) => fields
    case SendData(pid, data, _) => if paclen == 0 then [] else Packetize(pid, data, paclen)
    case _ => []
  }

  /** What is offered in one step at A, or at B. */
  function OfferOf(s: Step, atA: bool, paclen: nat): seq<Data> {
    match s
    case AtA(ev) => if atA then Offer(ev, paclen) else []
    case AtB(ev) => if atA then [] else Offer(ev, paclen)
  }

  function Offered(steps: seq<Step>, atA: bool, paclen: nat): seq<Data> {
    if steps == [] then [] else OfferOf(steps[0], atA, paclen) + Offered(steps[1..], atA, paclen)
  }

  /** One event adds to the history what was offered and digests what was accepted. */
  lemma EventEffect(l: Link, ev: Event, start: Assembler)
    requires Inv(l) && Proper(ev) && Digested(start, l.a)
    ensures var r := HappenAtA(l, ev);
            && Digested(start, r.a) && r.b == l.b && r.a.cfg == l.a.cfg
            && r.a.hist.queued == l.a.hist.queued + Offer(ev, l.a.cfg.paclen)
  {
    assert l.a.hist.queued + [] == l.a.hist.queued;
    match ev
    case Arrive(e) =>
      if l.ba != [] {
        var f := l.ba[0].frame;
        WasExpected(l.a, l.b, l.ab, l.ba);
        assert Forward(l.b, l.a, l.ba[0]) && Hear(l.a, f) == l.a;
        LapbLocal.InputKeeps(l.a, f, l.ba[0].nr, e);
        var r := Input(l.a, f, e);
        if r.hist.accepted != l.a.hist.accepted {
          DigestOne(start, l.a, r, f.info);
        }
      }
    case Lose(_) =>
    case T1Expires(e) => LapbLocal.RecoverKeeps(l.a, e);
    case T3Expires => LapbLocal.PollThemKeeps(l.a);
    case SendQueue(fields, e) => LapbLocal.SendFieldsKeeps(l.a, fields, e);
    case SendData(pid, data, e) =>
      if l.a.cfg.paclen != 0 {
        PacketizeNonEmpty(pid, data, l.a.cfg.paclen);
        LapbLocal.SendFieldsKeeps(l.a, Packetize(pid, data, l.a.cfg.paclen), e);
      }
    case Read(cnt, head) => LapbLocal.RecvKeeps(l.a, cnt, head);
    case Hangup => LapbLocal.DiscKeeps(l.a);
  }

  /** A link that was `l` and is `r`: what was offered is queued, what was accepted is digested. */
  ghost predicate Effect(l: Link, r: Link, atA: seq<Data>, atB: seq<Data>, sa: Assembler, sb: Assembler) {
    && Digested(sa, r.a) && Digested(sb, r.b) && r.a.cfg == l.a.cfg && r.b.cfg == l.b.cfg
    && r.a.hist.queued == l.a.hist.queued + atA && r.b.hist.queued == l.b.hist.queued + atB
  }

  lemma NextEffect(l: Link, s: Step, sa: Assembler, sb: Assembler)
    requires Inv(l) && Proper(s.ev) && Digested(sa, l.a) && Digested(sb, l.b)
    ensures Effect(l, Next(l, s), OfferOf(s, true, l.a.cfg.paclen), OfferOf(s, false, l.b.cfg.paclen), sa, sb)
  {
    assert l.a.hist.queued + [] == l.a.hist.queued && l.b.hist.queued + [] == l.b.hist.queued;
    match s {
      case AtA(ev) => EventEffect(l, ev, sa);
      case AtB(ev) =>
        FlipInv(l);
        EventEffect(Flip(l), ev, sb);
    }
  }

  /** Two effects one after the other. */
  lemma EffectTwice(l: Link, m: Link, r: Link, a1: seq<Data>, b1: seq<Data>, a2: seq<Data>, b2: seq<Data>,
                    sa: Assembler, sb: Assembler)
    requires Effect(l, m, a1, b1, sa, sb) && Effect(m, r, a2, b2, sa, sb)
    ensures Effect(l, r, a1 + a2, b1 + b2, sa, sb)
  {
    Assoc(l.a.hist.queued, a1, a2);
    Assoc(l.b.hist.queued, b1, b2);
  }

  lemma {:induction false} RunEffect(l: Link, steps: seq<Step>, sa: Assembler, sb: Assembler)
    requires Inv(l) && ProperRun(steps) && Digested(sa, l.a) && Digested(sb, l.b)
    ensures Effect(l, Run(l, steps), Offered(steps, true, l.a.cfg.paclen), Offered(steps, false, l.b.cfg.paclen), sa, sb)
    decreases |steps|
  {
    if steps == [] {
      assert l.a.hist.queued + [] == l.a.hist.queued && l.b.hist.queued + [] == l.b.hist.queued;
    } else {
      var m, pa, pb := Next(l, steps[0]), l.a.cfg.paclen, l.b.cfg.paclen;
      NextEffect(l, steps[0], sa, sb);
      NextKeeps(l, steps[0]);
      RunEffect(m, steps[1..], sa, sb);
      EffectTwice(l, m, Run(l, steps), OfferOf(steps[0], true, pa), OfferOf(steps[0], false, pb),
                  Offered(steps[1..], true, pa), Offered(steps[1..], false, pb), sa, sb);
    }
  }

  /** The calls `y` has made are those for a prefix of the packets and streams queued at `x`; for all, once all is accepted. */
  ghost predicate HandedUp(x: Cb, y: Cb, start: Assembler, sends: seq<Send>, paclen: nat)
    requires AllSendable(sends, paclen)
  {
    var whole := start.upcalls + AllUpcalls(sends, paclen);
    && y.asm.upcalls <= whole
    && (|y.hist.accepted| == |x.hist.queued| ==> y.asm.upcalls == whole)
  }

  lemma AcceptedHandsUp(x: Cb, y: Cb, start: Assembler, sends: seq<Send>, paclen: nat)
    requires AllSendable(sends, paclen) && Idle(start) && Digested(start, y)
    requires x.hist.queued == AllFields(sends, paclen) && y.hist.accepted <= x.hist.queued
    ensures HandedUp(x, y, start, sends, paclen)
  {
    AllAbsorb(start, sends, paclen);
    AbsorbPrefix(start, y.hist.accepted, x.hist.queued);
    if |y.hist.accepted| == |x.hist.queued| {
      assert y.hist.accepted == x.hist.queued;
    }
  }

  /**
   End to end. If what A's user has queued and offers over a run are the I-fields of these packets
   and streams, the calls B's `procdata` makes to `handleit` are the original packets, PID split
   off, and the chunks of the streams, in order: a prefix of them at any time, and all of
   them once B has accepted every I-field.
   */
  lemma EndToEnd(l: Link, steps: seq<Step>, sends: seq<Send>)
    requires Fresh(l) && ProperRun(steps) && Idle(l.b.asm)
    requires AllSendable(sends, l.a.cfg.paclen)
    requires l.a.txq + Offered(steps, true, l.a.cfg.paclen) == AllFields(sends, l.a.cfg.paclen)
    ensures HandedUp(Run(l, steps).a, Run(l, steps).b, l.b.asm, sends, l.a.cfg.paclen)
  {
    RunEffect(l, steps, l.a.asm, l.b.asm);
    Delivery(l, steps);
    AcceptedHandsUp(Run(l, steps).a, Run(l, steps).b, l.b.asm, sends, l.a.cfg.paclen);
  }
}
