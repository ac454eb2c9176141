module LapbLink {
  // Two endpoints joined by a pair of lossy first-in first-out channels (AX.25 version 2.0,
  // section 2.4), from the moment both are connected until whatever follows the release of the
  // link. Events interleave arbitrarily: a frame arrives, a frame is lost, T1 or T3 expires
  // (at any time, running or not), the user sends, reads or disconnects.

  import opened Bytes
  import opened LapbFrame
  import opened LapbSpec
  import opened LapbLocal

  datatype Link = Link(a: Cb, b: Cb, ab: seq<Wire>, ba: seq<Wire>)

  datatype Event =
    | Arrive(e: Env)
    | Lose(i: nat)
    | T1Expires(e: Env)
    | T3Expires
    | SendQueue(fields: seq<Data>, e: Env)
    | SendData(pid: byte, data: Data, e: Env)
    | Read(cnt: nat, head: nat)
    | Hangup

  datatype Step = AtA(ev: Event) | AtB(ev: Event)

  function Flip(l: Link): Link { Link(l.b, l.a, l.ba, l.ab) }

  /** What an event makes of the endpoint it happens at; `ch` is its incoming channel. */
  function React(c: Cb, ch: seq<Wire>, ev: Event): Cb {
    match ev
    case Arrive(e) => if ch == [] then c else AxInput(c, ch[0].frame, e)
    case Lose(_) => c
    case T1Expires(e) => Recover(c, e)
    case T3Expires => PollThem(c)
    case SendQueue(fields, e) => SendRaw(c, fields, e)
    case SendData(pid, data, e) => if c.cfg.paclen == 0 then c else SendStream(c, pid, data, e)
    case Read(cnt, head) => Recv(c, cnt, head)
    case Hangup => Disc(c)
  }

  function Drain(ch: seq<Wire>, ev: Event): seq<Wire> {
    match ev
    case Arrive(_) => if ch == [] then ch else ch[1..]
    case Lose(i) => if i < |ch| then ch[..i] + ch[i + 1..] else ch
    case _ => ch
  }

  function HappenAtA(l: Link, ev: Event): Link {
    var c := React(l.a, l.ba, ev);
    Link(c.(sent := []), l.b, l.ab + c.sent, Drain(l.ba, ev))
  }

  function Next(l: Link, s: Step): Link {
    match s
    case AtA(ev) => HappenAtA(l, ev)
    case AtB(ev) => Flip(HappenAtA(Flip(l), ev))
  }

  function Run(l: Link, steps: seq<Step>): Link
    decreases |steps|
  {
    if steps == [] then l else Run(Next(l, steps[0]), steps[1..])
  }

  /** The source never queues an empty I-field: `dup_p` would fail on it. */
  predicate Proper(ev: Event) {
    ev.SendQueue? ==> forall i :: 0 <= i < |ev.fields| ==> ev.fields[i] != []
  }

  predicate ProperRun(steps: seq<Step>) {
    forall i :: 0 <= i < |steps| ==> Proper(steps[i].ev)
  }

  // The invariant

  ghost predicate IsI(w: Wire) { w.frame.ctl.I? }

  /** The frames under way from `x` to `y`. */
  ghost predicate Forward(x: Cb, y: Cb, w: Wire) {
    w.frame.cmdrsp != Unknown &&
    match w.frame.ctl
    case I(ns, _, _) =>
      && |y.hist.accepted| <= w.ns + 7
      && w.ns < x.hist.freed + x.cfg.maxframe
      && w.ns < |x.hist.queued| && w.frame.info == x.hist.queued[w.ns] && ns == w.ns % 8
    case S(_, _, _) => true
    case U(k, _) => k != SABM && k != FRMR && (k == DISC ==> !x.Up()) && (k == UA ==> !y.Up())
  }

  /** The acknowledgements under way from `y` back to `x`. */
  ghost predicate Backward(x: Cb, y: Cb, w: Wire) {
    match w.frame.ctl
    case I(_, nr, _) => x.hist.freed <= w.nr <= |y.hist.accepted| && nr == w.nr % 8
    case S(_, nr, _) => x.hist.freed <= w.nr <= |y.hist.accepted| && nr == w.nr % 8
    case U(_, _) => true
  }

  /** No I frame is followed by one more than six numbers older. */
  ghost predicate Recent(ch: seq<Wire>) {
    forall i, j :: 0 <= i < j < |ch| && IsI(ch[i]) && IsI(ch[j]) ==> ch[i].ns <= ch[j].ns + 6
  }

  ghost predicate Dir(x: Cb, y: Cb, xy: seq<Wire>, yx: seq<Wire>) {
    && |y.hist.accepted| <= |x.hist.queued|
    && y.hist.accepted == x.hist.queued[..|y.hist.accepted|]
    && x.hist.freed <= |y.hist.accepted| <= x.hist.freed + x.cfg.maxframe
    && (forall i :: 0 <= i < |xy| ==> Forward(x, y, xy[i]))
    && (forall i :: 0 <= i < |yx| ==> Backward(x, y, yx[i]))
    && Recent(xy) && Sorted(yx)
  }

  ghost predicate Inv(l: Link) {
    && Start0(l.a) && Start0(l.b)
    && Dir(l.a, l.b, l.ab, l.ba) && Dir(l.b, l.a, l.ba, l.ab)
  }

  // Steps that receive nothing

  lemma QuietForward(x: Cb, r: Cb, y: Cb, xy: seq<Wire>, yx: seq<Wire>, fields: seq<Data>)
    requires Dir(x, y, xy, yx) && Start0(x) && Quiet(x, r, fields)
    ensures Dir(r, y, xy + r.sent, yx)
  {
    var ch := xy + r.sent;
    forall i | 0 <= i < |ch| ensures Forward(r, y, ch[i]) {
      if i < |xy| {
        assert Forward(x, y, xy[i]);
      } else {
        assert Truthful(r.sent[i - |xy|], r, |x.hist.accepted|);
      }
    }
    forall i | 0 <= i < |yx| ensures Backward(r, y, yx[i]) {
      assert Backward(x, y, yx[i]);
    }
    RecentGrows(x, r, y, xy, |x.hist.accepted|);
  }

  /** New I frames come from the window, old ones were at most a window ahead of it. */
  lemma RecentGrows(x: Cb, r: Cb, y: Cb, xy: seq<Wire>, lo: nat)
    requires Recent(xy) && forall i :: 0 <= i < |xy| ==> Forward(x, y, xy[i])
    requires SentOk(r, lo) && x.hist.freed <= r.hist.freed && x.cfg == r.cfg && x.cfg.maxframe <= 7
    ensures Recent(xy + r.sent)
  {
    var ch := xy + r.sent;
    forall i, j | 0 <= i < j < |ch| && IsI(ch[i]) && IsI(ch[j]) ensures ch[i].ns <= ch[j].ns + 6 {
      if j >= |xy| {
        assert Truthful(r.sent[j - |xy|], r, lo);
        if i < |xy| {
          assert Forward(x, y, xy[i]);
        } else {
          assert Truthful(r.sent[i - |xy|], r, lo);
        }
      }
    }
  }

  lemma QuietBackward(x: Cb, r: Cb, y: Cb, xy: seq<Wire>, yx: seq<Wire>, fields: seq<Data>)
    requires Dir(y, x, yx, xy) && Start0(x) && Quiet(x, r, fields)
    ensures Dir(y, r, yx, xy + r.sent)
  {
    var ch := xy + r.sent;
    forall i | 0 <= i < |yx| ensures Forward(y, r, yx[i]) {
      assert Forward(y, x, yx[i]);
    }
    BackwardGrows(x, r, y, xy);
  }

  /** Acknowledgements sent in one step do not fall behind those already under way. */
  lemma BackwardGrows(x: Cb, r: Cb, y: Cb, xy: seq<Wire>)
    requires Sorted(xy) && forall i :: 0 <= i < |xy| ==> Backward(y, x, xy[i])
    requires SentOk(r, |x.hist.accepted|) && y.hist.freed <= |x.hist.accepted|
    ensures Sorted(xy + r.sent) && forall i :: 0 <= i < |xy + r.sent| ==> Backward(y, r, (xy + r.sent)[i])
  {
    var ch := xy + r.sent;
    forall i | 0 <= i < |ch| ensures Backward(y, r, ch[i]) {
      if i < |xy| {
        assert Backward(y, x, xy[i]);
      } else {
        assert Truthful(r.sent[i - |xy|], r, |x.hist.accepted|);
      }
    }
    forall i, j | 0 <= i < j < |ch| && Numbered(ch[i]) && Numbered(ch[j]) ensures ch[i].nr <= ch[j].nr {
      if j >= |xy| {
        assert Truthful(r.sent[j - |xy|], r, |x.hist.accepted|);
        if i < |xy| {
          assert Backward(y, x, xy[i]);
        }
      }
    }
  }

  // Losing a frame, or taking it off the channel

  lemma DropKeeps(x: Cb, y: Cb, xy: seq<Wire>, yx: seq<Wire>, i: nat)
    requires i < |xy|
    ensures Dir(x, y, xy, yx) ==> Dir(x, y, xy[..i] + xy[i + 1..], yx)
    ensures Dir(y, x, yx, xy) ==> Dir(y, x, yx, xy[..i] + xy[i + 1..])
  {
    var ch := xy[..i] + xy[i + 1..];
    assert forall k :: 0 <= k < |ch| ==> ch[k] == xy[if k < i then k else k + 1];
  }

  // Receiving a frame

  lemma ArriveForward(x: Cb, r: Cb, y: Cb, xy: seq<Wire>, yx: seq<Wire>, e: Env)
    requires yx != [] && Dir(x, y, xy, yx) && Dir(y, x, yx, xy) && Start0(x) && Start0(y)
    requires Stepped(x, r, yx[0].frame, yx[0].nr) && Expected(x, yx[0].frame, yx[0].nr)
    ensures Dir(r, y, xy + r.sent, yx[1..])
  {
    var w := yx[0];
    assert Backward(x, y, w) && Forward(y, x, w);
    var ch := xy + r.sent;
    forall i | 0 <= i < |ch| ensures Forward(r, y, ch[i]) {
      if i < |xy| {
        assert Forward(x, y, xy[i]);
      } else {
        assert Truthful(r.sent[i - |xy|], r, |x.hist.accepted|);
      }
    }
    forall i | 0 <= i < |yx[1..]| ensures Backward(r, y, yx[1..][i]) {
      assert Backward(x, y, yx[i + 1]);
    }
    RecentGrows(x, r, y, xy, |x.hist.accepted|);
  }

  lemma ArriveBackward(x: Cb, r: Cb, y: Cb, xy: seq<Wire>, yx: seq<Wire>, e: Env)
    requires yx != [] && Dir(y, x, yx, xy) && Start0(x) && Start0(y)
    requires Stepped(x, r, yx[0].frame, yx[0].nr)
    ensures Dir(y, r, yx[1..], xy + r.sent)
  {
    var w := yx[0];
    assert Forward(y, x, w);
    var acc := |x.hist.accepted|;
    if r.hist.accepted != x.hist.accepted {
      AcceptedIsNext(x, y, w);
      assert r.hist.accepted == y.hist.queued[..acc + 1];
    }
    forall i | 0 <= i < |yx[1..]| ensures Forward(y, r, yx[1..][i]) {
      assert Forward(y, x, yx[i + 1]);
      assert IsI(w) && IsI(yx[i + 1]) ==> w.ns <= yx[i + 1].ns + 6;
    }
    BackwardGrows(x, r, y, xy);
  }

  /** An I frame whose three-bit N(S) equals V(R) is the very next one queued, not a wrapped one. */
  lemma AcceptedIsNext(x: Cb, y: Cb, w: Wire)
    requires Forward(y, x, w) && w.frame.ctl.I? && w.frame.ctl.ns == x.vr && Sound(x)
    requires y.hist.freed <= |x.hist.accepted| && y.cfg.maxframe <= 7
    ensures w.ns == |x.hist.accepted|
  {
    var acc := |x.hist.accepted|;
    if acc <= w.ns {
      Mod8(acc, w.ns);
    } else {
      Mod8(w.ns, acc);
    }
  }

  // Runs

  lemma HappenKeeps(l: Link, ev: Event)
    requires Inv(l) && Proper(ev)
    ensures Inv(HappenAtA(l, ev))
  {
    match ev
    case Arrive(e) =>
      if l.ba != [] {
        ArriveKeeps(l, e);
      } else {
        assert l.ab + [] == l.ab;
      }
    case Lose(i) =>
      assert l.ab + [] == l.ab;
      if i < |l.ba| {
        DropKeeps(l.b, l.a, l.ba, l.ab, i);
      }
    case T1Expires(e) => RecoverKeeps(l.a, e); QuietKeeps(l, ev, []);
    case T3Expires => PollThemKeeps(l.a); QuietKeeps(l, ev, []);
    case SendQueue(fields, e) =>
      if fields == [] {
        assert l.ab + [] == l.ab;
      } else {
        SendFieldsKeeps(l.a, fields, e);
        QuietKeeps(l, ev, fields);
      }
    case SendData(pid, data, e) =>
      if l.a.cfg.paclen == 0 {
        assert l.ab + [] == l.ab;
      } else {
        var fields := Packetize(pid, data, l.a.cfg.paclen);
        PacketizeNonEmpty(pid, data, l.a.cfg.paclen);
        SendFieldsKeeps(l.a, fields, e);
        QuietKeeps(l, ev, fields);
      }
    case Read(cnt, head) => RecvKeeps(l.a, cnt, head); QuietKeeps(l, ev, []);
    case Hangup => DiscKeeps(l.a); QuietKeeps(l, ev, []);
  }

  lemma QuietKeeps(l: Link, ev: Event, fields: seq<Data>)
    requires Inv(l) && !ev.Arrive? && !ev.Lose? && Quiet(l.a, React(l.a, l.ba, ev), fields)
    ensures Inv(HappenAtA(l, ev))
  {
    QuietInv(l, React(l.a, l.ba, ev), fields);
  }

  lemma QuietInv(l: Link, r: Cb, fields: seq<Data>)
    requires Inv(l) && Quiet(l.a, r, fields)
    ensures Inv(Link(r.(sent := []), l.b, l.ab + r.sent, l.ba))
  {
    QuietForward(l.a, r, l.b, l.ab, l.ba, fields);
    QuietBackward(l.a, r, l.b, l.ab, l.ba, fields);
    Settle(r, l.b, l.ab + r.sent, l.ba);
  }

  lemma ArriveKeeps(l: Link, e: Env)
    requires Inv(l) && l.ba != []
    ensures Inv(HappenAtA(l, Arrive(e)))
  {
    var w := l.ba[0];
    WasExpected(l.a, l.b, l.ab, l.ba);
    assert Forward(l.b, l.a, w) && Hear(l.a, w.frame) == l.a;
    InputKeeps(l.a, w.frame, w.nr, e);
    var r := Input(l.a, w.frame, e);
    ArriveBoth(l, r, e);
    Settle(r, l.b, l.ab + r.sent, l.ba[1..]);
  }

  lemma Settle(r: Cb, y: Cb, xy: seq<Wire>, yx: seq<Wire>)
    requires Sound(r) && r.response == NoResponse && Start0(y) && Dir(r, y, xy, yx) && Dir(y, r, yx, xy)
    ensures Inv(Link(r.(sent := []), y, xy, yx))
  {
    ClearSent(r, y, xy, yx);
  }

  /** The head of the incoming channel meets what `InputKeeps` asks of a received frame. */
  lemma WasExpected(x: Cb, y: Cb, xy: seq<Wire>, yx: seq<Wire>)
    requires Dir(x, y, xy, yx) && Dir(y, x, yx, xy) && yx != [] && Sound(x)
    ensures Expected(x, yx[0].frame, yx[0].nr)
  {
    assert Forward(y, x, yx[0]) && Backward(x, y, yx[0]);
  }

  lemma ArriveBoth(l: Link, r: Cb, e: Env)
    requires Inv(l) && l.ba != [] && Stepped(l.a, r, l.ba[0].frame, l.ba[0].nr)
    ensures Dir(r, l.b, l.ab + r.sent, l.ba[1..]) && Dir(l.b, r, l.ba[1..], l.ab + r.sent)
  {
    WasExpected(l.a, l.b, l.ab, l.ba);
    ArriveForward(l.a, r, l.b, l.ab, l.ba, e);
    ArriveBackward(l.a, r, l.b, l.ab, l.ba, e);
  }

  /** Once handed to the channel, the frames need not be remembered at the endpoint. */
  lemma ClearSent(r: Cb, y: Cb, xy: seq<Wire>, yx: seq<Wire>)
    ensures Dir(r, y, xy, yx) ==> Dir(r.(sent := []), y, xy, yx)
    ensures Dir(y, r, yx, xy) ==> Dir(y, r.(sent := []), yx, xy)
  {
    var q := r.(sent := []);
    assert forall w :: Forward(r, y, w) == Forward(q, y, w);
    assert forall w :: Backward(r, y, w) == Backward(q, y, w);
    assert forall w :: Forward(y, r, w) == Forward(y, q, w);
    assert forall w :: Backward(y, r, w) == Backward(y, q, w);
  }

  lemma FlipInv(l: Link)
    ensures Inv(l) <==> Inv(Flip(l))
  {
  }

  lemma NextKeeps(l: Link, s: Step)
    requires Inv(l) && Proper(s.ev)
    ensures Inv(Next(l, s))
  {
    match s
    case AtA(ev) => HappenKeeps(l, ev);
    case AtB(ev) =>
      FlipInv(l);
      HappenKeeps(Flip(l), ev);
      FlipInv(HappenAtA(Flip(l), ev));
  }

  lemma {:induction false} RunKeeps(l: Link, steps: seq<Step>)
    requires Inv(l) && ProperRun(steps)
    ensures Inv(Run(l, steps))
    decreases |steps|
  {
    if steps != [] {
      NextKeeps(l, steps[0]);
      RunKeeps(Next(l, steps[0]), steps[1..]);
    }
  }

  /** An endpoint whose link has just come up: counters zero, nothing owed, perhaps data waiting. */
  ghost predicate FreshEnd(c: Cb) {
    && (c.state == Connected || c.state == Recovery) && c.vs == c.vr == c.unack == 0 && 1 <= c.cfg.maxframe <= 7
    && c.sent == [] && c.response == NoResponse
    && c.hist == History(c.txq, 0, []) && (forall i :: 0 <= i < |c.txq| ==> c.txq[i] != [])
  }

  ghost predicate Fresh(l: Link) {
    FreshEnd(l.a) && FreshEnd(l.b) && l.ab == [] && l.ba == []
  }

  /**
   Delivery. In every run of a fresh link, each side has accepted a prefix of what the other
   queued, in order and without repeats; `ackours` has freed only frames the peer has
   accepted; and the peer is never more than a window ahead of it.
   */
  lemma Delivery(l: Link, steps: seq<Step>)
    requires Fresh(l) && ProperRun(steps)
    ensures var r := Run(l, steps);
            && r.b.hist.accepted <= r.a.hist.queued && r.a.hist.accepted <= r.b.hist.queued
            && r.a.hist.freed <= |r.b.hist.accepted| <= r.a.hist.freed + r.a.cfg.maxframe
            && r.b.hist.freed <= |r.a.hist.accepted| <= r.b.hist.freed + r.b.cfg.maxframe
  {
    RunKeeps(l, steps);
  }
}
