module Ax25 {
  // AX.25 headers (ax25hdr.c) and the digipeating and route learning of `ax_recv` (ax25.c).

  import opened Bytes
  import opened LapbFrame
  import opened Lists

  const ALEN := 6
  const AXALEN := 7
  const MAXDIGIS := 7

  const C: bv8 := 0x80
  const E: bv8 := 0x01
  const REPEATED: bv8 := 0x80
  const SSID: bv8 := 0x1e

  /** A callsign of six shifted characters, and the octet with the SSID and the flag bits. */
  type Call = c: Octets | |c| == ALEN witness [0x40, 0x40, 0x40, 0x40, 0x40, 0x40]

  datatype Addr = Addr(call: Call, ssid: octet)

  datatype Header = Header(dest: Addr, source: Addr, digis: seq<Addr>, nextdigi: nat, cmdrsp: CmdRsp)

  /** `addreq`: the same station, whatever the flag bits. */
  predicate Same(a: Addr, b: Addr) { a.call == b.call && (a.ssid ^ b.ssid) & SSID == 0 }

  // One address on the wire

  function Wire(a: Addr): (s: Octets)
    ensures |s| == AXALEN
  {
    a.call + [a.ssid]
  }

  function Flag(a: Addr, bit: bv8, on: bool): Addr { a.(ssid := if on then a.ssid | bit else a.ssid & !bit) }

  predicate Has(a: Addr, bit: bv8) { a.ssid & bit != 0 }

  function Unwire(s: Octets): (a: Addr)
    requires |s| == AXALEN
    ensures Wire(a) == s
  {
    Addr(s[..ALEN], s[ALEN])
  }

  lemma Rewire(a: Addr, rest: Octets)
    ensures (Wire(a) + rest)[..AXALEN] == Wire(a) && (Wire(a) + rest)[AXALEN..] == rest && Unwire(Wire(a)) == a
  {
  }

  // Headers on the wire

  /** The destination and source as `htonax25` writes them. */
  function DestOut(h: Header): Addr { Flag(Flag(h.dest, C, h.cmdrsp == Command), E, false) }

  function SourceOut(h: Header): Addr {
    var a := Flag(h.source, C, h.cmdrsp == Response);
    if h.digis == [] then Flag(a, E, true) else a
  }

  /** Digipeater `i` as it is written. */
  function DigiOut(h: Header, i: nat): Addr
    requires i < |h.digis|
  {
    Flag(Flag(h.digis[i], E, i + 1 == |h.digis|), REPEATED, i < h.nextdigi)
  }

  function DigisOut(h: Header, i: nat): Octets
    requires i <= |h.digis|
    decreases |h.digis| - i
  {
    if i == |h.digis| then [] else Wire(DigiOut(h, i)) + DigisOut(h, i + 1)
  }

  function Encode(h: Header): Octets { Wire(DestOut(h)) + (Wire(SourceOut(h)) + DigisOut(h, 0)) }

  /** `htonax25`: the header goes in front of the packet; too many digipeaters, and nothing is done. */
  method Hton(h: Header, packet: Octets) returns (out: Octets)
    ensures out == if |h.digis| > MAXDIGIS then packet else Encode(h) + packet
  {
    if |h.digis| > MAXDIGIS {
      return packet;
    }
    var dest, source := h.dest, h.source;
    dest := Flag(dest, C, h.cmdrsp == Command);
    dest := Flag(dest, E, false);
    source := Flag(source, C, h.cmdrsp == Response);
    if |h.digis| == 0 {
      source := Flag(source, E, true);
      assert DigisOut(h, 0) == [] && Wire(source) + [] == Wire(source);
      return Wire(dest) + Wire(source) + packet;
    }
    var head, i := [], 0;
    assert [] + DigisOut(h, 0) == DigisOut(h, 0);
    while i < |h.digis|
      invariant i <= |h.digis| && head + DigisOut(h, i) == DigisOut(h, 0)
    {
      var a := Flag(h.digis[i], E, i >= |h.digis| - 1);
      a := Flag(a, REPEATED, i < h.nextdigi);
      Assoc(head, Wire(a), DigisOut(h, i + 1));
      head := head + Wire(a);
      i := i + 1;
    }
    assert head + [] == head;
    out := Wire(dest) + (Wire(source) + head) + packet;
  }

  function Sense(dest: Addr, source: Addr): CmdRsp {
    if Has(source, C) == Has(dest, C) then Unknown else if Has(source, C) then Response else Command
  }

  /** The digipeaters from here on; none if there are too many, or the packet ends. */
  function DigisIn(s: Octets, n: nat): Option<(seq<Addr>, Octets)>
    decreases n
  {
    if n == 0 || |s| < AXALEN then None
    else
      var a, rest := Unwire(s[..AXALEN]), s[AXALEN..];
      if Has(a, E) then Some(([a], rest))
      else
        var more := DigisIn(rest, n - 1);
        if more.None? then None else Some(([a] + more.value.0, more.value.1))
  }

  function Repeats(digis: seq<Addr>): nat {
    if digis == [] then 0 else (if Has(digis[0], REPEATED) then 1 else 0) + Repeats(digis[1..])
  }

  /** `ntohax25`: the header, and what is left of the packet. */
  function Decode(s: Octets): Option<(Header, Octets)> {
    if |s| < 2 * AXALEN then None
    else
      var dest, source, rest := Unwire(s[..AXALEN]), Unwire(s[AXALEN..2 * AXALEN]), s[2 * AXALEN..];
      if Has(source, E) then Some((Header(dest, source, [], 0, Sense(dest, source)), rest))
      else
        var d := DigisIn(rest, MAXDIGIS);
        if d.None? then None
        else Some((Header(dest, source, d.value.0, Repeats(d.value.0), Sense(dest, source)), d.value.1))
  }

  method Ntoh(s: Octets) returns (r: Option<(Header, Octets)>)
    ensures r == Decode(s)
  {
    if |s| < AXALEN || |s[AXALEN..]| < AXALEN {
      return None;
    }
    var dest, source, rest := Unwire(s[..AXALEN]), Unwire(s[AXALEN..2 * AXALEN]), s[2 * AXALEN..];
    var cmdrsp := Sense(dest, source);
    if Has(source, E) {
      return Some((Header(dest, source, [], 0, cmdrsp), rest));
    }
    var digis, nextdigi := [], 0;
    ghost var goal := DigisIn(rest, MAXDIGIS);
    Before0(goal);
    while |digis| < MAXDIGIS && |rest| >= AXALEN
      invariant |digis| <= MAXDIGIS && nextdigi == Repeats(digis)
      invariant goal == BeforeDigis(digis, DigisIn(rest, MAXDIGIS - |digis|))
      decreases MAXDIGIS - |digis|
    {
      var a := Unwire(rest[..AXALEN]);
      BeforeMore(digis, a, DigisIn(rest[AXALEN..], MAXDIGIS - |digis| - 1));
      RepeatsMore(digis, a);
      digis, rest := digis + [a], rest[AXALEN..];
      if Has(a, REPEATED) {
        nextdigi := nextdigi + 1;
      }
      if Has(a, E) {
        return Some((Header(dest, source, digis, nextdigi, cmdrsp), rest));
      }
    }
    r := None;
  }

  function BeforeDigis(digis: seq<Addr>, d: Option<(seq<Addr>, Octets)>): Option<(seq<Addr>, Octets)> {
    if d.None? then None else Some((digis + d.value.0, d.value.1))
  }

  lemma Before0(d: Option<(seq<Addr>, Octets)>)
    ensures BeforeDigis([], d) == d
  {
    if d.Some? { assert [] + d.value.0 == d.value.0; }
  }

  lemma BeforeMore(digis: seq<Addr>, a: Addr, d: Option<(seq<Addr>, Octets)>)
    ensures d.Some? ==> digis + ([a] + d.value.0) == digis + [a] + d.value.0
  {
  }

  lemma {:induction false} RepeatsMore(digis: seq<Addr>, a: Addr)
    ensures Repeats(digis + [a]) == Repeats(digis) + if Has(a, REPEATED) then 1 else 0
  {
    if digis == [] {
      assert digis + [a] == [a] && [a][1..] == [];
    } else {
      assert (digis + [a])[1..] == digis[1..] + [a];
      RepeatsMore(digis[1..], a);
    }
  }

  // The two together

  lemma FlagBits(a: Addr, bit: bv8, on: bool)
    requires bit == C || bit == E
    ensures Has(Flag(a, bit, on), bit) == on && Same(Flag(a, bit, on), a)
    ensures bit == C ==> Has(Flag(a, bit, on), E) == Has(a, E)
    ensures bit == E ==> Has(Flag(a, bit, on), C) == Has(a, C)
  {
  }

  /** Setting a flag forgets how it was. */
  lemma FlagAgain(a: Addr, e: bool, c: bool, e': bool, c': bool)
    ensures Flag(Flag(Flag(Flag(a, E, e), C, c), E, e'), C, c') == Flag(Flag(a, E, e'), C, c')
    ensures Flag(Flag(Flag(Flag(a, C, c), E, e), C, c'), E, e') == Flag(Flag(a, C, c'), E, e')
    ensures Flag(Flag(a, C, c), C, c') == Flag(a, C, c')
  {
  }

  lemma SameSwap(a: Addr, b: Addr, c: Addr)
    requires Same(a, b)
    ensures Same(b, a) && (Same(a, c) <==> Same(b, c))
  {
  }

  function DigiList(h: Header, i: nat): seq<Addr>
    requires i <= |h.digis|
    decreases |h.digis| - i
  {
    if i == |h.digis| then [] else [DigiOut(h, i)] + DigiList(h, i + 1)
  }

  /** The header as it reads on the wire: the same stations, with their flag bits set. */
  function Normal(h: Header): Header { h.(dest := DestOut(h), source := SourceOut(h), digis := DigiList(h, 0)) }

  lemma DigiBits(h: Header, i: nat)
    requires i < |h.digis|
    ensures Has(DigiOut(h, i), E) == (i + 1 == |h.digis|) && Has(DigiOut(h, i), REPEATED) == (i < h.nextdigi)
    ensures Same(DigiOut(h, i), h.digis[i])
  {
    var a := Flag(h.digis[i], E, i + 1 == |h.digis|);
    FlagBits(h.digis[i], E, i + 1 == |h.digis|);
    FlagBits(a, C, i < h.nextdigi);
    SameSwap(a, DigiOut(h, i), h.digis[i]);
  }

  lemma {:induction false} DigisBack(h: Header, i: nat, rest: Octets, n: nat)
    requires i < |h.digis| && |h.digis| - i <= n
    ensures DigisIn(DigisOut(h, i) + rest, n) == Some((DigiList(h, i), rest))
    decreases |h.digis| - i
  {
    DigiBits(h, i);
    var w, more := Wire(DigiOut(h, i)), DigisOut(h, i + 1);
    assert w + more + rest == w + (more + rest);
    Rewire(DigiOut(h, i), more + rest);
    if i + 1 == |h.digis| {
      assert more + rest == rest && DigiList(h, i) == [DigiOut(h, i)];
    } else {
      DigisBack(h, i + 1, rest, n - 1);
    }
  }

  lemma {:induction false} RepeatsBack(h: Header, i: nat)
    requires i <= |h.digis| && h.nextdigi <= |h.digis|
    ensures Repeats(DigiList(h, i)) == if i < h.nextdigi then h.nextdigi - i else 0
    decreases |h.digis| - i
  {
    if i < |h.digis| {
      DigiBits(h, i);
      RepeatsBack(h, i + 1);
      assert DigiList(h, i)[1..] == DigiList(h, i + 1);
    }
  }

  lemma SenseBack(h: Header)
    ensures Sense(DestOut(h), SourceOut(h)) == h.cmdrsp
    ensures Has(SourceOut(h), E) == (h.digis == [] || Has(h.source, E))
    ensures Same(DestOut(h), h.dest) && Same(SourceOut(h), h.source)
  {
    var d, s := Flag(h.dest, C, h.cmdrsp == Command), Flag(h.source, C, h.cmdrsp == Response);
    FlagBits(h.dest, C, h.cmdrsp == Command);
    FlagBits(d, E, false);
    FlagBits(h.source, C, h.cmdrsp == Response);
    FlagBits(s, E, true);
    SameSwap(d, DestOut(h), h.dest);
    SameSwap(s, SourceOut(h), h.source);
  }

  lemma WirePair(a: Addr, b: Addr, rest: Octets)
    ensures var s := Wire(a) + (Wire(b) + rest);
            && |s| >= 2 * AXALEN && Unwire(s[..AXALEN]) == a && Unwire(s[AXALEN..2 * AXALEN]) == b
            && s[2 * AXALEN..] == rest
  {
    var s := Wire(a) + (Wire(b) + rest);
    assert s[..AXALEN] == Wire(a) && s[AXALEN..2 * AXALEN] == Wire(b);
  }

  /**
   A header read back is the header written, command or response sense and all, exactly when it has
   no digipeaters or its source address does not claim to be the last.
   */
  lemma RoundTrip(h: Header, payload: Octets)
    requires |h.digis| <= MAXDIGIS && h.nextdigi <= |h.digis|
    ensures Decode(Encode(h) + payload) == Some((Normal(h), payload)) <==> h.digis == [] || !Has(h.source, E)
    ensures h.digis != [] && Has(h.source, E) ==> Decode(Encode(h) + payload).value.0.digis == []
  {
    var digis := DigisOut(h, 0);
    Assoc(Wire(DestOut(h)), Wire(SourceOut(h)) + digis, payload);
    Assoc(Wire(SourceOut(h)), digis, payload);
    WirePair(DestOut(h), SourceOut(h), digis + payload);
    SenseBack(h);
    if h.digis == [] {
      assert digis + payload == payload;
    } else {
      assert DigiList(h, 0) != [];
      DigisBack(h, 0, payload, MAXDIGIS);
      RepeatsBack(h, 0);
    }
  }

  // Receiving and repeating

  /** What a station does with a frame: nothing, send it on, or pass the packet up. */
  datatype Action = Ignore | Repeat(frame: Octets) | Accept(hdr: Header, payload: Octets, mcast: bool)

  /** A station: its address, whether it digipeats, and the addresses everybody listens to. */
  datatype Station = Station(me: Addr, digipeat: bool, multi: seq<Addr>)

  predicate Listed(a: Addr, multi: seq<Addr>) { exists m :: m in multi && Same(a, m) }

  /** The next station a frame is for. */
  function Immediate(h: Header): Addr { if h.nextdigi < |h.digis| then h.digis[h.nextdigi] else h.dest }

  function Forward(h: Header): Header { h.(nextdigi := h.nextdigi + 1) }

  /** The address part of `ax_recv`. */
  function Receive(st: Station, frame: Octets): Action {
    var d := Decode(frame);
    if d.None? then Ignore
    else
      var h, payload := d.value.0, d.value.1;
      var idest := Immediate(h);
      var mcast := Listed(idest, st.multi);
      if !mcast && !Same(idest, st.me) then Ignore
      else if h.nextdigi < |h.digis| then
        if st.digipeat && !mcast && |h.digis| <= MAXDIGIS then Repeat(Encode(Forward(h)) + payload) else Ignore
      else if payload == [] then Ignore
      else Accept(h, payload, mcast)
  }

  /** The search of `ax_recv` through the multicast addresses. */
  method InList(idest: Addr, multi: seq<Addr>) returns (mcast: bool)
    ensures mcast == Listed(idest, multi)
  {
    var i := 0;
    mcast := false;
    while i < |multi| && !mcast
      invariant i <= |multi| && (mcast ==> Listed(idest, multi))
      invariant !mcast ==> forall j :: 0 <= j < i ==> !Same(idest, multi[j])
    {
      if Same(idest, multi[i]) {
        assert multi[i] in multi;
        mcast := true;
      }
      i := i + 1;
    }
  }

  method AxRecv(st: Station, frame: Octets) returns (action: Action)
    ensures action == Receive(st, frame)
  {
    var d := Ntoh(frame);
    if d.None? {
      return Ignore;
    }
    var hdr, bp := d.value.0, d.value.1;
    var idest := if hdr.digis != [] && hdr.nextdigi < |hdr.digis| then hdr.digis[hdr.nextdigi] else hdr.dest;
    var mcast := InList(idest, st.multi);
    if !mcast && !Same(idest, st.me) {
      return Ignore;
    }
    if hdr.nextdigi < |hdr.digis| {
      if st.digipeat && !mcast && |hdr.digis| <= MAXDIGIS {
        hdr := hdr.(nextdigi := hdr.nextdigi + 1);
        var out := Hton(hdr, bp);
        return Repeat(out);
      }
      return Ignore;
    }
    if bp == [] {
      return Ignore;
    }
    action := Accept(hdr, bp, mcast);
  }

  /** A header a station may send. */
  predicate Sendable(h: Header) { |h.digis| <= MAXDIGIS && (h.digis == [] || !Has(h.source, E)) }

  /** The frame after `i` of its digipeaters have passed it on. */
  function Frame(h: Header, i: nat, payload: Octets): Octets { Encode(h.(nextdigi := i)) + payload }

  lemma {:induction false} DigiListLen(h: Header, i: nat)
    requires i <= |h.digis|
    ensures |DigiList(h, i)| == |h.digis| - i
    ensures forall k :: i <= k < |h.digis| ==> DigiList(h, i)[k - i] == DigiOut(h, k)
    decreases |h.digis| - i
  {
    if i < |h.digis| {
      DigiListLen(h, i + 1);
      forall k | i <= k < |h.digis| ensures DigiList(h, i)[k - i] == DigiOut(h, k) {
        if k > i { assert DigiList(h, i)[k - i] == DigiList(h, i + 1)[k - (i + 1)]; }
      }
    }
  }

  /** Read, moved on and written again, a header is what the sender would have written. */
  lemma Reencode(h: Header)
    requires h.nextdigi < |h.digis|
    ensures Encode(Forward(Normal(h))) == Encode(Forward(h))
  {
    var m := Forward(Normal(h));
    DigiListLen(h, 0);
    assert DestOut(m) == DestOut(Forward(h)) by {
      FlagAgain(h.dest, false, h.cmdrsp == Command, false, h.cmdrsp == Command);
    }
    assert SourceOut(m) == SourceOut(Forward(h)) by {
      FlagAgain(h.source, false, h.cmdrsp == Response, false, h.cmdrsp == Response);
    }
    RewriteDigis(h, m, 0);
  }

  lemma {:induction false} RewriteDigis(h: Header, m: Header, i: nat)
    requires |m.digis| == |h.digis| && i <= |h.digis| && m.nextdigi == h.nextdigi + 1
    requires forall k :: 0 <= k < |h.digis| ==> m.digis[k] == DigiOut(h, k)
    ensures DigisOut(m, i) == DigisOut(Forward(h), i)
    decreases |h.digis| - i
  {
    if i < |h.digis| {
      var e := i + 1 == |h.digis|;
      FlagAgain(h.digis[i], e, i < h.nextdigi, e, i < m.nextdigi);
      RewriteDigis(h, m, i + 1);
    }
  }

  /** Whom the frame is for when `i` digipeaters have passed it. */
  function Turn(h: Header, i: nat): Addr { if i < |h.digis| then h.digis[i] else h.dest }

  lemma ListedSame(a: Addr, b: Addr, multi: seq<Addr>)
    requires Same(a, b)
    ensures Listed(a, multi) <==> Listed(b, multi)
  {
    forall m | m in multi ensures Same(a, m) <==> Same(b, m) {
      SameSwap(a, b, m);
    }
  }

  /**
   What every station does with the frame after `i` of its `n` digipeaters: until all have passed,
   only the next one listed repeats it, as the frame after `i + 1`; then only the destination, or
   everybody if that is a multicast address, takes the packet.
   */
  lemma Hop(h: Header, i: nat, payload: Octets, st: Station)
    requires Sendable(h) && i <= |h.digis|
    ensures var mcast, me := Listed(Turn(h, i), st.multi), Same(Turn(h, i), st.me);
            Receive(st, Frame(h, i, payload)) ==
            if i < |h.digis| then
              if me && st.digipeat && !mcast then Repeat(Frame(h, i + 1, payload)) else Ignore
            else if (mcast || me) && payload != [] then Accept(Normal(h.(nextdigi := i)), payload, mcast)
            else Ignore
  {
    var hi := h.(nextdigi := i);
    RoundTrip(hi, payload);
    SenseBack(hi);
    DigiListLen(hi, 0);
    var n := Normal(hi);
    var idest := Immediate(n);
    assert Same(idest, Turn(h, i)) by {
      if i < |h.digis| { DigiBits(hi, i); }
    }
    SameSwap(idest, Turn(h, i), st.me);
    ListedSame(idest, Turn(h, i), st.multi);
    if i < |h.digis| {
      Reencode(hi);
      assert Forward(hi) == h.(nextdigi := i + 1);
    }
  }

  /** The frame handed from station to station, if each repeats it. */
  function RelayBy(receive: (Station, Octets) -> Action, frame: Octets, sts: seq<Station>): Option<Octets>
    decreases |sts|
  {
    if sts == [] then Some(frame)
    else
      var a := receive(sts[0], frame);
      if a.Repeat? then RelayBy(receive, a.frame, sts[1..]) else None
  }

  function Relay(frame: Octets, sts: seq<Station>): Option<Octets> { RelayBy(Receive, frame, sts) }

  predicate WillRepeat(h: Header, i: nat, st: Station) {
    i < |h.digis| && Same(h.digis[i], st.me) && st.digipeat && !Listed(h.digis[i], st.multi)
  }

  /** These stations are the digipeaters listed from the `i`-th on, in order. */
  predicate InOrder(h: Header, i: nat, sts: seq<Station>)
    decreases |sts|
  {
    sts == [] || (WillRepeat(h, i, sts[0]) && InOrder(h, i + 1, sts[1..]))
  }

  /** Frames `f(i)`, `f(i + 1)`, and so on are what each station in turn makes of the one before. */
  ghost predicate Steps(receive: (Station, Octets) -> Action, f: nat -> Octets, w: (nat, Station) -> bool,
                        i: nat, sts: seq<Station>)
    decreases |sts|
  {
    sts == [] ||
    (if w(i, sts[0]) then receive(sts[0], f(i)) == Repeat(f(i + 1)) && Steps(receive, f, w, i + 1, sts[1..])
     else !receive(sts[0], f(i)).Repeat?)
  }

  predicate All(w: (nat, Station) -> bool, i: nat, sts: seq<Station>)
    decreases |sts|
  {
    sts == [] || (w(i, sts[0]) && All(w, i + 1, sts[1..]))
  }

  lemma {:induction false} RelaySteps(receive: (Station, Octets) -> Action, f: nat -> Octets, w: (nat, Station) -> bool,
                                      i: nat, sts: seq<Station>)
    requires Steps(receive, f, w, i, sts)
    ensures RelayBy(receive, f(i), sts) == if All(w, i, sts) then Some(f(i + |sts|)) else None
    decreases |sts|
  {
    if sts != [] && w(i, sts[0]) {
      RelaySteps(receive, f, w, i + 1, sts[1..]);
    }
  }

  lemma {:induction false} HopSteps(h: Header, i: nat, payload: Octets, sts: seq<Station>)
    requires Sendable(h) && i <= |h.digis|
    ensures Steps(Receive, (j: nat) => Frame(h, j, payload), (j: nat, st) => WillRepeat(h, j, st), i, sts)
    decreases |sts|
  {
    if sts != [] {
      Hop(h, i, payload, sts[0]);
      if WillRepeat(h, i, sts[0]) {
        HopSteps(h, i + 1, payload, sts[1..]);
      }
    }
  }

  lemma {:induction false} AllInOrder(h: Header, i: nat, sts: seq<Station>)
    ensures All((j: nat, st) => WillRepeat(h, j, st), i, sts) == InOrder(h, i, sts)
    decreases |sts|
  {
    if sts != [] {
      AllInOrder(h, i + 1, sts[1..]);
    }
  }

  /** A frame goes through a row of stations exactly when they are the listed digipeaters, in order. */
  lemma RelayedInOrder(h: Header, i: nat, payload: Octets, sts: seq<Station>)
    requires Sendable(h) && i <= |h.digis|
    ensures Relay(Frame(h, i, payload), sts) ==
            if InOrder(h, i, sts) then Some(Frame(h, i + |sts|, payload)) else None
  {
    var f, w := (j: nat) => Frame(h, j, payload), (j: nat, st) => WillRepeat(h, j, st);
    HopSteps(h, i, payload, sts);
    AllInOrder(h, i, sts);
    RelaySteps(Receive, f, w, i, sts);
    assert f(i) == Frame(h, i, payload) && f(i + |sts|) == Frame(h, i + |sts|, payload);
  }

  // Routes learned

  /** A digipeater as it goes in a route. */
  function Bare(a: Addr): Addr { a.(ssid := a.ssid & !(E | REPEATED)) }

  function Reversed(digis: seq<Addr>): (r: seq<Addr>)
    ensures |r| == |digis| && forall k :: 0 <= k < |r| ==> r[k] == Bare(digis[|digis| - 1 - k])
  {
    if digis == [] then [] else Reversed(digis[1..]) + [Bare(digis[0])]
  }

  /** The station of `b`, without the flag bits. */
  predicate Cleared(a: Addr, b: Addr) { Same(a, b) && !Has(a, E) && !Has(a, REPEATED) }

  lemma BareSame(a: Addr, b: Addr)
    requires Same(a, b)
    ensures Cleared(Bare(a), b)
  {
  }

  /** The route learned from an accepted frame names the stations that repeated it, last first. */
  lemma LearnsReversePath(h: Header, payload: Octets, st: Station)
    requires Sendable(h) && Receive(st, Frame(h, |h.digis|, payload)).Accept?
    ensures var path := Reversed(Receive(st, Frame(h, |h.digis|, payload)).hdr.digis);
            && |path| == |h.digis|
            && forall k :: 0 <= k < |path| ==> Cleared(path[k], h.digis[|h.digis| - 1 - k])
  {
    Hop(h, |h.digis|, payload, st);
    ReversePath(h.(nextdigi := |h.digis|));
  }

  lemma ReversePath(h: Header)
    ensures var path, n := Reversed(Normal(h).digis), |h.digis|;
            |path| == n && forall k :: 0 <= k < n ==> Cleared(path[k], h.digis[n - 1 - k])
  {
    DigiListLen(h, 0);
    forall k | 0 <= k < |h.digis|
      ensures Cleared(Reversed(DigiList(h, 0))[k], h.digis[|h.digis| - 1 - k])
    {
      ReversedAt(h, DigiList(h, 0), k);
    }
  }

  lemma ReversedAt(h: Header, digis: seq<Addr>, k: nat)
    requires k < |h.digis| == |digis| && digis[|h.digis| - 1 - k] == DigiOut(h, |h.digis| - 1 - k)
    ensures Cleared(Reversed(digis)[k], h.digis[|h.digis| - 1 - k])
  {
    BareDigi(h, |h.digis| - 1 - k);
  }

  lemma BareDigi(h: Header, i: nat)
    requires i < |h.digis|
    ensures Cleared(Bare(DigiOut(h, i)), h.digis[i])
  {
    DigiBits(h, i);
    BareSame(DigiOut(h, i), h.digis[i]);
  }

  datatype RouteType = Local | Auto

  datatype Route = Route(target: Addr, digis: seq<Addr>, kind: RouteType)

  function Find(rs: seq<Route>, target: Addr): Option<Route> {
    if rs == [] then None else if Same(rs[0].target, target) then Some(rs[0]) else Find(rs[1..], target)
  }

  /** No two routes are for the same station. */
  ghost predicate Distinct(rs: seq<Route>) {
    forall i, j :: 0 <= i < j < |rs| ==> !Same(rs[i].target, rs[j].target)
  }

  lemma {:induction false} FindAt(rs: seq<Route>, i: nat, target: Addr)
    requires i < |rs| && Same(rs[i].target, target) && forall j :: 0 <= j < i ==> !Same(rs[j].target, target)
    ensures Find(rs, target) == Some(rs[i])
  {
    if i > 0 {
      FindAt(rs[1..], i - 1, target);
    }
  }

  lemma {:induction false} FindNone(rs: seq<Route>, target: Addr)
    requires forall j :: 0 <= j < |rs| ==> !Same(rs[j].target, target)
    ensures Find(rs, target) == None
  {
    if rs != [] {
      FindNone(rs[1..], target);
    }
  }

  function Fronted(rs: seq<Route>, i: nat): seq<Route>
    requires i < |rs|
  {
    [rs[i]] + (rs[..i] + rs[i + 1..])
  }

  lemma SameBothWays(a: Addr, b: Addr)
    ensures Same(a, b) == Same(b, a)
  {
    assert a.ssid ^ b.ssid == b.ssid ^ a.ssid;
  }

  lemma SameMiddle(a: Addr, b: Addr, c: Addr)
    requires Same(a, c) && Same(b, c)
    ensures Same(a, b) && Same(b, a)
  {
  }

  lemma {:induction false} FindSplit(a: seq<Route>, b: seq<Route>, target: Addr)
    ensures Find(a + b, target) == if Find(a, target).Some? then Find(a, target) else Find(b, target)
  {
    if a == [] {
      assert a + b == b;
    } else {
      assert (a + b)[1..] == a[1..] + b;
      FindSplit(a[1..], b, target);
    }
  }

  /** Moving a route to the front changes what no station's route is. */
  lemma FrontFinds(rs: seq<Route>, i: nat, target: Addr)
    requires i < |rs| && Distinct(rs)
    ensures Find(Fronted(rs, i), target) == Find(rs, target)
  {
    var a, r, b := rs[..i], rs[i], rs[i + 1..];
    assert rs == a + ([r] + b);
    FindSplit(a, [r] + b, target);
    FindSplit([r], b, target);
    FindSplit([r], a + b, target);
    FindSplit(a, b, target);
    assert [r][1..] == [];
    if Same(r.target, target) {
      forall j | 0 <= j < |a| ensures !Same(a[j].target, target) {
        if Same(a[j].target, target) { SameMiddle(a[j].target, r.target, target); }
      }
      FindNone(a, target);
    }
  }

  class Routes {
    var routes: seq<Route>

    ghost predicate Valid()
      reads this
    {
      Distinct(routes)
    }

    constructor ()
      ensures Valid() && routes == []
    {
      routes := [];
    }

    /** `ax_lookup`: the route found goes to the front. */
    method Lookup(target: Addr) returns (r: Option<Route>)
      requires Valid()
      modifies this
      ensures Valid() && r == Find(old(routes), target)
      ensures r.Some? ==> routes != [] && routes[0] == r.value && Same(r.value.target, target)
      ensures r.None? ==> routes == old(routes) && forall i :: 0 <= i < |routes| ==> !Same(routes[i].target, target)
      ensures forall a :: Find(routes, a) == Find(old(routes), a)
    {
      var i := 0;
      while i < |routes| && !Same(routes[i].target, target)
        invariant i <= |routes| && forall j :: 0 <= j < i ==> !Same(routes[j].target, target)
      {
        i := i + 1;
      }
      if i == |routes| {
        FindNone(routes, target);
        return None;
      }
      FindAt(routes, i, target);
      r := Some(routes[i]);
      forall a ensures Find(Fronted(routes, i), a) == Find(routes, a) {
        FrontFinds(routes, i, a);
      }
      FrontedDistinct(routes, i);
      routes := Fronted(routes, i);
    }

    /** `ax_add` */
    method Add(target: Addr, kind: RouteType, digis: seq<Addr>) returns (ok: bool)
      requires Valid()
      modifies this
      ensures Valid() && ok == (|digis| <= MAXDIGIS)
      ensures forall a :: Find(routes, a) == if ok && Same(target, a) then AddedRoute(old(routes), target, kind, digis)
                                             else Find(old(routes), a)
    {
      if |digis| > MAXDIGIS {
        return false;
      }
      ghost var was := routes;
      var r := Lookup(target);
      var entry := Route(if r.Some? then r.value.target else target, digis, kind);
      ghost var rest := if r.Some? then routes[1..] else routes;
      if r.Some? {
        assert routes == [routes[0]] + rest;
      }
      forall a ensures Find([entry] + rest, a) == if Same(target, a) then Some(entry) else Find(was, a) {
        HeadFinds(routes, entry, rest, target, a);
      }
      HeadDistinct(routes, entry, rest, target);
      routes := if r.Some? then routes[0 := entry] else [entry] + routes;
      assert routes == [entry] + rest;
      ok := true;
    }

    /** The end of `ax_recv`: a route set locally is left alone. */
    method Learn(hdr: Header)
      requires Valid() && |hdr.digis| <= MAXDIGIS
      modifies this
      ensures Valid()
      ensures var known := Find(old(routes), hdr.source);
              forall a :: Find(routes, a) ==
                if Same(hdr.source, a) && hdr.digis != [] && (known.None? || known.value.kind == Auto)
                then AddedRoute(old(routes), hdr.source, Auto, Reversed(hdr.digis))
                else Find(old(routes), a)
    {
      ghost var was := routes;
      var r := Lookup(hdr.source);
      if (r.None? || r.value.kind == Auto) && hdr.digis != [] {
        var digis, i := [], |hdr.digis|;
        while i > 0
          invariant 0 <= i <= |hdr.digis| && digis == Reversed(hdr.digis[i..])
        {
          i := i - 1;
          assert hdr.digis[i..][1..] == hdr.digis[i + 1..];
          digis := digis + [Bare(hdr.digis[i])];
        }
        assert hdr.digis[0..] == hdr.digis;
        var _ := Add(hdr.source, Auto, digis);
      }
    }
  }

  /** The route for `target` once added; the address first recorded for the station stays. */
  function AddedRoute(rs: seq<Route>, target: Addr, kind: RouteType, digis: seq<Addr>): Option<Route> {
    var r := Find(rs, target);
    Some(Route(if r.Some? then r.value.target else target, digis, kind))
  }

  lemma FrontedDistinct(rs: seq<Route>, i: nat)
    requires i < |rs| && Distinct(rs)
    ensures Distinct(Fronted(rs, i))
  {
    var f := Fronted(rs, i);
    forall j, k | 0 <= j < k < |f| ensures !Same(f[j].target, f[k].target) {
      var j0 := if j == 0 then i else if j <= i then j - 1 else j;
      var k0 := if k <= i then k - 1 else k;
      assert f[j] == rs[j0] && f[k] == rs[k0] && j0 != k0;
      SameBothWays(f[j].target, f[k].target);
    }
  }

  lemma HeadDistinct(rs: seq<Route>, entry: Route, rest: seq<Route>, target: Addr)
    requires Same(entry.target, target) && Distinct(rs)
    requires if rest == rs then forall i :: 0 <= i < |rs| ==> !Same(rs[i].target, target)
             else rs != [] && rest == rs[1..] && entry.target == rs[0].target
    ensures Distinct([entry] + rest)
  {
    forall j | 0 <= j < |rest| ensures !Same(entry.target, rest[j].target) {
      if rest == rs {
        SameBothWays(rest[j].target, target);
        SameSwap(entry.target, target, rest[j].target);
      }
    }
  }

  lemma HeadFinds(rs: seq<Route>, entry: Route, rest: seq<Route>, target: Addr, a: Addr)
    requires Same(entry.target, target) && Distinct(rs)
    requires if rest == rs then forall i :: 0 <= i < |rs| ==> !Same(rs[i].target, target)
             else rs != [] && rest == rs[1..] && Same(rs[0].target, target)
    ensures Find([entry] + rest, a) == if Same(target, a) then Some(entry) else Find(rs, a)
  {
    assert ([entry] + rest)[1..] == rest;
    SameSwap(entry.target, target, a);
    if rest != rs {
      SameSwap(rs[0].target, target, a);
    }
  }
}
