module Ahdlc {
  // Asynchronous HDLC framing (ahdlc.c), section 4.2 of RFC 1662.

  import opened Bytes
  import opened Crc
  import opened Lists

  const ESC: octet := 0x7d
  const FLAG: octet := 0x7e
  const COMPL: octet := 0x20

  datatype Stats = Stats(rxframes: nat, aborts: nat, toobigs: nat, crcerrs: nat, runts: nat)

  /** The receiver control block. */
  datatype Rx = Rx(escaped: bool, hunt: bool, inframe: Option<Octets>, fcs: bv16, stats: Stats)

  /** Waiting for a frame. */
  function Idle(st: Stats): Rx { Rx(false, false, None, FCS_START, st) }

  function Hunting(escaped: bool, st: Stats): Rx { Rx(escaped, true, None, FCS_START, st) }

  function Held(r: Rx): Octets { if r.inframe.Some? then r.inframe.value else [] }

  /** `ahdlcrx`: one octet in, and a packet out when it completes one. */
  function Step(r: Rx, maxsize: nat, c: octet): (Rx, Option<Octets>) {
    if c == ESC then (r.(escaped := true), None)
    else if c != FLAG then (Character(r, maxsize, if r.escaped then c ^ COMPL else c), None)
    else if r.escaped then (Hunting(false, r.stats.(aborts := r.stats.aborts + 1)), None)
    else if r.hunt then (r.(hunt := false), None)
    else EndOfFrame(r)
  }

  function Character(r: Rx, maxsize: nat, c: octet): Rx {
    if r.hunt then r
    else if |Held(r)| == maxsize then Hunting(false, r.stats.(toobigs := r.stats.toobigs + 1))
    else r.(escaped := false, inframe := Some(Held(r) + [c]), fcs := Fcs(r.fcs, c))
  }

  function EndOfFrame(r: Rx): (Rx, Option<Octets>) {
    var done := r.(inframe := None, fcs := FCS_START);
    if r.inframe == None then (r, None)
    else if r.fcs != FCS_FINAL then (done.(stats := r.stats.(crcerrs := r.stats.crcerrs + 1)), None)
    else if |Held(r)| < 2 then (done.(stats := r.stats.(runts := r.stats.runts + 1)), None)
    else (done.(stats := r.stats.(rxframes := r.stats.rxframes + 1)), Some(Held(r)[..|Held(r)| - 2]))
  }

  class Receiver {
    const maxsize: nat
    var escaped: bool
    var hunt: bool
    var inframe: Option<Octets>
    var fcs: bv16
    var stats: Stats

    function Value(): Rx
      reads this
    {
      Rx(escaped, hunt, inframe, fcs, stats)
    }

    /** `init_hdlc` */
    constructor (maxsize: nat)
      ensures Value() == Idle(Stats(0, 0, 0, 0, 0)) && this.maxsize == maxsize
    {
      this.maxsize, escaped, hunt, inframe, fcs := maxsize, false, false, None, FCS_START;
      stats := Stats(0, 0, 0, 0, 0);
    }

    method Receive(c0: octet) returns (packet: Option<Octets>)
      modifies this
      ensures (Value(), packet) == Step(old(Value()), maxsize, c0)
    {
      packet := None;
      if c0 == ESC {
        escaped := true;
        return;
      }
      if c0 != FLAG {
        Store(c0);
        return;
      }
      if escaped {
        stats := stats.(aborts := stats.aborts + 1);
        hunt, escaped, inframe, fcs := true, false, None, FCS_START;
        return;
      }
      if hunt {
        hunt := false;
        return;
      }
      packet := End();
    }

    method Store(c0: octet)
      modifies this
      ensures Value() == Character(old(Value()), maxsize, if old(escaped) then c0 ^ COMPL else c0)
    {
      if hunt {
        return;
      }
      var c := c0;
      if escaped {
        c := c ^ COMPL;
        escaped := false;
      }
      if inframe == None {
        inframe := Some([]);
      }
      if |inframe.value| == maxsize {
        stats := stats.(toobigs := stats.toobigs + 1);
        inframe, escaped, fcs, hunt := None, false, FCS_START, true;
        return;
      }
      inframe := Some(inframe.value + [c]);
      fcs := FcsStep(fcs, c);
    }

    method End() returns (packet: Option<Octets>)
      modifies this
      ensures (Value(), packet) == EndOfFrame(old(Value()))
    {
      packet := None;
      if inframe == None {
        return;
      }
      if fcs != FCS_FINAL {
        stats := stats.(crcerrs := stats.crcerrs + 1);
      } else if |inframe.value| < 2 {
        stats := stats.(runts := stats.runts + 1);
      } else {
        stats := stats.(rxframes := stats.rxframes + 1);
        packet := Some(inframe.value[..|inframe.value| - 2]);
      }
      inframe, fcs := None, FCS_START;
    }
  }

  // Sending

  predicate Special(c: octet) { c == FLAG || c == ESC }

  function Stuff(s: Octets): Octets {
    if s == [] then [] else (if Special(s[0]) then [ESC, s[0] ^ COMPL] else [s[0]]) + Stuff(s[1..])
  }

  /** A packet and its check sequence. */
  function Checked(p: Octets): (s: Octets)
    ensures |s| == |p| + 2
  {
    p + Trailer(FcsOver(FCS_START, p))
  }

  function Encode(p: Octets): Octets { Stuff(Checked(p)) + [FLAG] }

  lemma {:induction false} StuffAppend(s: Octets, t: Octets)
    ensures Stuff(s + t) == Stuff(s) + Stuff(t)
  {
    if s == [] {
      assert s + t == t;
    } else {
      assert (s + t)[1..] == s[1..] + t;
      StuffAppend(s[1..], t);
    }
  }

  method PutByte(out: Octets, c: octet, ghost s: Octets) returns (more: Octets)
    requires out == Stuff(s)
    ensures more == Stuff(s + [c])
  {
    more := if Special(c) then out + [ESC, c ^ COMPL] else out + [c];
    StuffAppend(s, [c]);
    assert [c][1..] == [];
  }

  /** `ahdlctx` */
  method Transmit(p: Octets) returns (out: Octets)
    ensures out == Encode(p)
  {
    var fcs := FCS_START;
    var i := 0;
    out := [];
    while i < |p|
      invariant i <= |p| && fcs == FcsOver(FCS_START, p[..i]) && out == Stuff(p[..i])
    {
      fcs := FcsNext(p[..i], fcs, p[i]);
      out := PutByte(out, p[i], p[..i]);
      assert p[..i] + [p[i]] == p[..i + 1];
      i := i + 1;
    }
    assert p[..i] == p;
    var t := Trailer(fcs);
    out := PutByte(out, t[0], p);
    out := PutByte(out, t[1], p + [t[0]]);
    assert p + [t[0]] + [t[1]] == Checked(p);
    out := out + [FLAG];
  }

  // Receiving a run of octets

  function Got(packet: Option<Octets>): seq<Octets> { if packet.Some? then [packet.value] else [] }

  function Run(r: Rx, maxsize: nat, s: Octets): (Rx, seq<Octets>)
    decreases |s|
  {
    if s == [] then (r, [])
    else
      var (r1, packet) := Step(r, maxsize, s[0]);
      var rest := Run(r1, maxsize, s[1..]);
      (rest.0, Got(packet) + rest.1)
  }

  lemma {:induction false} RunAppend(r: Rx, maxsize: nat, s: Octets, t: Octets)
    ensures var first := Run(r, maxsize, s);
            var second := Run(first.0, maxsize, t);
            Run(r, maxsize, s + t) == (second.0, first.1 + second.1)
    decreases |s|
  {
    if s == [] {
      assert s + t == t && Run(r, maxsize, s).1 + Run(r, maxsize, t).1 == Run(r, maxsize, t).1;
    } else {
      assert (s + t)[1..] == s[1..] + t && (s + t)[0] == s[0];
      var (r1, packet) := Step(r, maxsize, s[0]);
      RunAppend(r1, maxsize, s[1..], t);
      var first := Run(r1, maxsize, s[1..]);
      var second := Run(first.0, maxsize, t);
      assert Got(packet) + (first.1 + second.1) == Got(packet) + first.1 + second.1;
    }
  }

  lemma RunOne(r: Rx, maxsize: nat, c: octet)
    ensures Run(r, maxsize, [c]) == (Step(r, maxsize, c).0, Got(Step(r, maxsize, c).1))
  {
    var (r1, packet) := Step(r, maxsize, c);
    assert [c][1..] == [];
    assert Run(r1, maxsize, []) == (r1, []) && Got(packet) + [] == Got(packet);
  }

  /** Part of a frame has come in. */
  function Taking(d: Octets, st: Stats): Rx {
    Rx(false, false, if d == [] then None else Some(d), FcsOver(FCS_START, d), st)
  }

  lemma Unstuffed(c: octet)
    requires Special(c)
    ensures !Special(c ^ COMPL) && (c ^ COMPL) ^ COMPL == c
  {
  }

  lemma TakeOne(d: Octets, c: octet, maxsize: nat, st: Stats)
    requires |d| < maxsize
    ensures Run(Taking(d, st), maxsize, Stuff([c])) == (Taking(d + [c], st), [])
  {
    FcsAppend(FCS_START, d, [c]);
    assert [c][1..] == [];
    assert FcsOver(Fcs(FcsOver(FCS_START, d), c), []) == Fcs(FcsOver(FCS_START, d), c);
    if Special(c) {
      Unstuffed(c);
      var r1 := Taking(d, st).(escaped := true);
      assert Step(Taking(d, st), maxsize, ESC) == (r1, None);
      assert Stuff([c]) == [ESC] + [c ^ COMPL];
      RunAppend(Taking(d, st), maxsize, [ESC], [c ^ COMPL]);
      RunOne(Taking(d, st), maxsize, ESC);
      RunOne(r1, maxsize, c ^ COMPL);
    } else {
      assert Stuff([c]) == [c];
      RunOne(Taking(d, st), maxsize, c);
    }
  }

  /** Inside a frame, the receiver takes back exactly what was stuffed. */
  lemma {:induction false} TakeAll(d: Octets, q: Octets, maxsize: nat, st: Stats)
    requires |d| + |q| <= maxsize
    ensures Run(Taking(d, st), maxsize, Stuff(q)) == (Taking(d + q, st), [])
    decreases |q|
  {
    if q == [] {
      assert d + q == d;
    } else {
      assert q == [q[0]] + q[1..] && d + q == d + [q[0]] + q[1..];
      StuffAppend([q[0]], q[1..]);
      TakeOne(d, q[0], maxsize, st);
      TakeAll(d + [q[0]], q[1..], maxsize, st);
      RunAppend(Taking(d, st), maxsize, Stuff([q[0]]), Stuff(q[1..]));
    }
  }

  /** A frame that fits, whether good or not, and the flag after it. */
  lemma WholeFrame(q: Octets, maxsize: nat, st: Stats)
    requires 2 <= |q| <= maxsize
    ensures Run(Idle(st), maxsize, Stuff(q) + [FLAG]) ==
            if FcsOver(FCS_START, q) == FCS_FINAL then (Idle(st.(rxframes := st.rxframes + 1)), [q[..|q| - 2]])
            else (Idle(st.(crcerrs := st.crcerrs + 1)), [])
  {
    assert Taking([], st) == Idle(st) && [] + q == q;
    TakeAll([], q, maxsize, st);
    RunAppend(Idle(st), maxsize, Stuff(q), [FLAG]);
    RunOne(Taking(q, st), maxsize, FLAG);
    assert forall out: seq<Octets> :: [] + out == out;
  }

  function Concat(ps: seq<Octets>): Octets {
    if ps == [] then [] else Encode(ps[0]) + Concat(ps[1..])
  }

  /** One packet sent is one packet received. */
  lemma OnePacket(p: Octets, maxsize: nat, st: Stats)
    requires |p| + 2 <= maxsize
    ensures Run(Idle(st), maxsize, Encode(p)) == (Idle(st.(rxframes := st.rxframes + 1)), [p])
  {
    assert Checked(p)[..|p|] == p;
    Checks(p);
    WholeFrame(Checked(p), maxsize, st);
  }

  /** Packets sent one after the other come out one after the other, and the receiver is idle again. */
  lemma {:induction false} RoundTrip(ps: seq<Octets>, maxsize: nat, st: Stats)
    requires forall p :: p in ps ==> |p| + 2 <= maxsize
    ensures Run(Idle(st), maxsize, Concat(ps)) == (Idle(st.(rxframes := st.rxframes + |ps|)), ps)
    decreases |ps|
  {
    if ps == [] {
    } else {
      assert ps[0] in ps && ps == [ps[0]] + ps[1..];
      OnePacket(ps[0], maxsize, st);
      RoundTrip(ps[1..], maxsize, st.(rxframes := st.rxframes + 1));
      RunAppend(Idle(st), maxsize, Encode(ps[0]), Concat(ps[1..]));
    }
  }

  /** A frame damaged within two adjacent octets is dropped and counted, and the next is not affected. */
  lemma DamageDropped(p: Octets, pre: Octets, a: octet, b: octet, c: octet, d: octet, post: Octets,
                      maxsize: nat, st: Stats)
    requires Checked(p) == pre + [a, b] + post && (a != c || b != d) && |p| + 2 <= maxsize
    ensures Run(Idle(st), maxsize, Stuff(pre + [c, d] + post) + [FLAG]) ==
            (Idle(st.(crcerrs := st.crcerrs + 1)), [])
  {
    Checks(p);
    BurstDetected(pre, a, b, c, d, post);
    assert |pre + [c, d] + post| == |pre + [a, b] + post|;
    WholeFrame(pre + [c, d] + post, maxsize, st);
  }

  // Finding the frames again

  /** What every receiver state keeps: nothing is held between frames. */
  ghost predicate Sound(r: Rx, maxsize: nat) {
    && (r.inframe == None ==> r.fcs == FCS_START) && (r.hunt ==> r.inframe == None)
    && (r.inframe.Some? ==> 0 < |r.inframe.value| <= maxsize && r.fcs == FcsOver(FCS_START, r.inframe.value))
  }

  lemma StepKeepsSound(r: Rx, maxsize: nat, c: octet)
    requires Sound(r, maxsize)
    ensures Sound(Step(r, maxsize, c).0, maxsize)
  {
    if r.inframe.Some? {
      var d, e := r.inframe.value, c ^ COMPL;
      FcsAppend(FCS_START, d, [c]);
      FcsAppend(FCS_START, d, [e]);
      assert [c][1..] == [] && [e][1..] == [];
    }
  }

  /** Two flags in a row bring the receiver to idle from every state. */
  lemma TwoFlags(r: Rx, maxsize: nat)
    requires Sound(r, maxsize)
    ensures var r' := Run(r, maxsize, [FLAG, FLAG]).0; r' == Idle(r'.stats)
  {
    RunAppend(r, maxsize, [FLAG], [FLAG]);
    RunOne(r, maxsize, FLAG);
    RunOne(Step(r, maxsize, FLAG).0, maxsize, FLAG);
  }

  lemma {:induction false} HuntIgnores(escaped: bool, q: Octets, maxsize: nat, st: Stats)
    requires FLAG !in q
    ensures Run(Hunting(escaped, st), maxsize, q) == (Hunting(escaped || ESC in q, st), [])
    decreases |q|
  {
    if q == [] {
    } else {
      var c := q[0];
      assert q == [c] + q[1..];
      assert Step(Hunting(escaped, st), maxsize, c) == (Hunting(escaped || c == ESC, st), None);
      HuntIgnores(escaped || c == ESC, q[1..], maxsize, st);
      assert Got(None) + Run(Hunting(escaped || c == ESC, st), maxsize, q[1..]).1 == [];
    }
  }

  /** A flag ends the hunt exactly when no escape was ignored since it began. */
  lemma HuntEnds(q: Octets, maxsize: nat, st: Stats)
    requires FLAG !in q
    ensures var r := Run(Hunting(false, st), maxsize, q + [FLAG]).0;
            r == Idle(r.stats) <==> ESC !in q
  {
    HuntIgnores(false, q, maxsize, st);
    RunAppend(Hunting(false, st), maxsize, q, [FLAG]);
    RunOne(Hunting(ESC in q, st), maxsize, FLAG);
  }

  lemma {:induction false} StuffClean(q: Octets)
    ensures FLAG !in Stuff(q) && (ESC in Stuff(q) <==> exists i :: 0 <= i < |q| && Special(q[i]))
  {
    if q != [] {
      StuffClean(q[1..]);
      var head := if Special(q[0]) then [ESC, q[0] ^ COMPL] else [q[0]];
      assert Stuff(q) == head + Stuff(q[1..]);
      if Special(q[0]) {
        Unstuffed(q[0]);
        assert head[0] == ESC;
      }
    }
  }

  /**
   A frame too large is dropped and counted. The flag after it resynchronises the receiver exactly
   when nothing beyond the first octet too many had to be stuffed; if not, the next frame is lost too.
   */
  lemma TooBig(q: Octets, maxsize: nat, st: Stats)
    requires |q| > maxsize
    ensures var end := Run(Idle(st), maxsize, Stuff(q) + [FLAG]);
            && end.1 == [] && end.0.stats.toobigs == st.toobigs + 1
            && (end.0 == Idle(end.0.stats) <==> forall i :: maxsize < i < |q| ==> !Special(q[i]))
  {
    var rest := q[maxsize + 1..];
    Overflows(q, maxsize, st);
    StuffClean(rest);
    HuntEnds(Stuff(rest), maxsize, st.(toobigs := st.toobigs + 1));
    HuntQuiet(Stuff(rest), maxsize, st.(toobigs := st.toobigs + 1));
    SpecialAfter(q, maxsize, rest);
  }

  /** After its first octet too many, the receiver hunts through the rest of the frame. */
  lemma Overflows(q: Octets, maxsize: nat, st: Stats)
    requires |q| > maxsize
    ensures Run(Idle(st), maxsize, Stuff(q) + [FLAG]) ==
            Run(Hunting(false, st.(toobigs := st.toobigs + 1)), maxsize, Stuff(q[maxsize + 1..]) + [FLAG])
  {
    var d, c, rest := q[..maxsize], q[maxsize], q[maxsize + 1..];
    assert q == d + ([c] + rest);
    assert Taking([], st) == Idle(st) && [] + d == d;
    TakeAll([], d, maxsize, st);
    OneTooMany(d, c, maxsize, st);
    StuffParts(d, c, rest);
    RunQuiet(Idle(st), Taking(d, st), maxsize, Stuff(d), Stuff([c]) + (Stuff(rest) + [FLAG]));
    RunQuiet(Taking(d, st), Hunting(false, st.(toobigs := st.toobigs + 1)), maxsize, Stuff([c]), Stuff(rest) + [FLAG]);
  }

  lemma StuffParts(d: Octets, c: octet, rest: Octets)
    ensures Stuff(d + ([c] + rest)) + [FLAG] == Stuff(d) + (Stuff([c]) + (Stuff(rest) + [FLAG]))
  {
    StuffAppend(d, [c] + rest);
    StuffAppend([c], rest);
  }

  /** Octets that complete no frame only move the receiver on. */
  lemma RunQuiet(r: Rx, r': Rx, maxsize: nat, s: Octets, t: Octets)
    requires Run(r, maxsize, s) == (r', [])
    ensures Run(r, maxsize, s + t) == Run(r', maxsize, t)
  {
    RunAppend(r, maxsize, s, t);
    assert [] + Run(r', maxsize, t).1 == Run(r', maxsize, t).1;
  }

  lemma HuntQuiet(q: Octets, maxsize: nat, st: Stats)
    requires FLAG !in q
    ensures var end := Run(Hunting(false, st), maxsize, q + [FLAG]); end.1 == [] && end.0.stats.toobigs == st.toobigs
  {
    HuntIgnores(false, q, maxsize, st);
    RunAppend(Hunting(false, st), maxsize, q, [FLAG]);
    RunOne(Hunting(ESC in q, st), maxsize, FLAG);
  }

  lemma SpecialAfter(q: Octets, n: nat, rest: Octets)
    requires n < |q| && rest == q[n + 1..]
    ensures (exists j :: 0 <= j < |rest| && Special(rest[j])) <==> exists i :: n < i < |q| && Special(q[i])
  {
    if i :| n < i < |q| && Special(q[i]) {
      assert rest[i - n - 1] == q[i];
    }
  }

  lemma OneTooMany(d: Octets, c: octet, maxsize: nat, st: Stats)
    requires |d| == maxsize
    ensures Run(Taking(d, st), maxsize, Stuff([c])) == (Hunting(false, st.(toobigs := st.toobigs + 1)), [])
  {
    assert [c][1..] == [];
    if Special(c) {
      Unstuffed(c);
      var r1 := Taking(d, st).(escaped := true);
      assert Stuff([c]) == [ESC] + [c ^ COMPL];
      RunAppend(Taking(d, st), maxsize, [ESC], [c ^ COMPL]);
      RunOne(Taking(d, st), maxsize, ESC);
      RunOne(r1, maxsize, c ^ COMPL);
    } else {
      assert Stuff([c]) == [c];
      RunOne(Taking(d, st), maxsize, c);
    }
  }
}
