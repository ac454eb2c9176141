module LapbLive {
  // The link never waits on nothing. These properties need no peer: they hold of one control
  // block through every sequence of frames (well formed or not), timer expiries and user calls,
  // in all of its states and over any number of incarnations.

  import opened Bytes
  import opened LapbFrame
  import opened LapbSpec

  /** T1 can be started, queued frames can be sent, and the round-trip clock has not run backwards. */
  ghost predicate Base(c: Cb, now: int) {
    && 1 <= c.cfg.maxframe && 1 <= c.cfg.paclen
    && c.rtt.srt >= 1 && c.rtt.mdev >= 0 && c.t1.duration > 0
    && (c.flags.rttrun ==> c.rtt.time <= now)
    && (forall i :: 0 <= i < |c.txq| ==> c.txq[i] != [])
    && (c.Up() ==> c.unack <= c.cfg.maxframe && c.unack <= |c.txq|)
    && (c.Up() && c.unack > 0 ==> c.t1.running)
  }

  /** The one state in which RECOVERY waits without T1: an AX.25 version 1 peer said it was busy. */
  predicate OldPeerBusy(c: Cb) { c.cfg.proto == V1 && c.flags.remotebusy }

  ghost predicate Live(c: Cb, now: int) {
    && Base(c, now)
    && (c.state == Recovery ==> c.t1.running || OldPeerBusy(c))
    && (c.Up() && !c.flags.remotebusy ==> c.unack == Min(c.cfg.maxframe, |c.txq|))
  }

  /** What the body of `lapb_input` leaves for `lapb_output` to finish. */
  ghost predicate Pending(c: Cb, now: int) {
    && Base(c, now)
    && (c.state == Recovery ==> c.t1.running || OldPeerBusy(c) || (!c.flags.remotebusy && c.txq != []))
  }

  lemma {:induction false} AckLoopBase(c: Cb, oldest: nat, n: nat, e: Env)
    requires c.Up() && Base(c.(t1 := c.t1.(running := true)), e.now)
    ensures var (r, ok) := AckLoop(c, oldest, n, e);
            && ok && Base(r.(t1 := r.t1.(running := true)), e.now) && r.t1.running == c.t1.running
            && r.state == c.state && r.cfg == c.cfg && r.flags.remotebusy == c.flags.remotebusy
            && r.unack <= c.unack && |r.txq| - r.unack == |c.txq| - c.unack
    decreases c.unack
  {
    if c.unack != 0 && oldest != n {
      var c1 := FreeOne(c, oldest, e);
      assert forall i :: 0 <= i < |c1.txq| ==> c1.txq[i] == c.txq[i + 1];
      AckLoopBase(c1, (oldest + 1) % 8, n, e);
    }
  }

  /** After an acknowledgement T1 runs if anything is outstanding, given that it ran or something was freed. */
  lemma AckOursBase(c: Cb, n: nat, e: Env)
    requires c.Up() && Base(c.(t1 := c.t1.(running := true)), e.now)
    ensures var r := AckOurs(c, n, e);
            && Base(r.(t1 := r.t1.(running := true)), e.now)
            && (c.t1.running && r.unack > 0 ==> r.t1.running)
            && r.state == c.state && r.cfg == c.cfg && r.flags.remotebusy == c.flags.remotebusy
            && |r.txq| - r.unack == |c.txq| - c.unack
  {
    AckLoopBase(c, (c.vs - c.unack) % 8, n, e);
  }

  lemma {:induction false} SendLoopLive(c: Cb, e: Env)
    requires c.Up() && !c.flags.remotebusy && Pending(c, e.now)
    ensures Live(SendLoop(c, e), e.now) && SendLoop(c, e).cfg == c.cfg
    decreases c.cfg.maxframe - c.unack
  {
    if c.unack < |c.txq| && c.unack < c.cfg.maxframe {
      SendLoopLive(SendNext(c, e), e);
    }
  }

  lemma FinishLive(c: Cb, e: Env)
    requires Pending(c, e.now)
    ensures Live(Flush(Output(c, e)), e.now) && Live(Output(c, e), e.now)
    ensures Flush(Output(c, e)).cfg == Output(c, e).cfg == c.cfg
  {
    OutputLive(c, e);
    FlushLive(Output(c, e), e.now);
  }

  lemma OutputLive(c: Cb, e: Env)
    requires Pending(c, e.now)
    ensures Live(Output(c, e), e.now) && Output(c, e).cfg == c.cfg
  {
    if c.Up() && !c.flags.remotebusy {
      SendLoopLive(c, e);
    }
  }

  lemma FlushLive(c: Cb, now: int)
    requires Live(c, now)
    ensures Live(Flush(c), now) && Flush(c).cfg == c.cfg
  {
  }

  // Input

  lemma SRecoveryPending(c: Cb, f: Frame, e: Env)
    requires c.state == Recovery && Base(c, e.now) && f.ctl.S? && f.ctl.skind != SOther
    requires c.flags.remotebusy ==> !f.ctl.pf
    ensures Pending(InSRecovery(c, f, e), e.now) && InSRecovery(c, f, e).cfg == c.cfg
  {
    if c.cfg.proto == V1 || Final(f) {
      AckOursBase(c.(t1 := Stop(c.t1)), f.ctl.nr, e);
    } else {
      AckOursBase(Answer(c, f), f.ctl.nr, e);
    }
  }

  lemma SConnectedPending(c: Cb, f: Frame, e: Env)
    requires c.state == Connected && Base(c, e.now) && f.ctl.S? && f.ctl.skind != SOther
    ensures Pending(InUp(c, f, e), e.now) && InUp(c, f, e).cfg == c.cfg
  {
    AckOursBase(Answer(SetBusy(c, f.ctl.skind == RNR && f.ctl.nr == 0 && !f.ctl.pf), f), f.ctl.nr, e);
  }

  lemma IPending(c: Cb, f: Frame, e: Env)
    requires c.Up() && Live(c, e.now) && f.ctl.I?
    ensures Pending(InUp(c, f, e), e.now) && InUp(c, f, e).cfg == c.cfg
  {
    AckOursBase(c, f.ctl.nr, e);
    var c1 := AckOurs(c, f.ctl.nr, e);
    var c2 := if c.state == Connected then c1 else KeepT1(c1);
    assert Pending(c2, e.now);
    ReceivePending(c2, f, e);
  }

  lemma ReceivePending(c: Cb, f: Frame, e: Env)
    requires f.ctl.I? && Pending(c, e.now)
    ensures Pending(Receive(c, f), e.now) && Receive(c, f).cfg == c.cfg
  {
    if f.ctl.ns == c.vr {
      AcceptedUntouched(c, f);
    }
    SamePending(c, Receive(c, f), e.now);
  }

  /** Nothing that is waited for is touched. */
  predicate Untouched(c: Cb, r: Cb) {
    r == c.(vr := r.vr, hist := r.hist, sent := r.sent, response := r.response, asm := r.asm, t3 := r.t3,
            flags := c.flags.(rejsent := r.flags.rejsent))
  }

  lemma AcceptedUntouched(c: Cb, f: Frame)
    requires f.ctl.I? && f.ctl.ns == c.vr
    ensures Untouched(c, Receive(c, f))
  {
  }

  lemma SamePending(c: Cb, r: Cb, now: int)
    requires Pending(c, now) && Untouched(c, r)
    ensures Pending(r, now) && r.cfg == c.cfg
  {
  }

  lemma DispatchPending(c: Cb, f: Frame, e: Env)
    requires Live(c, e.now) && e.irtt >= 1
    ensures Pending(Dispatch(c, f, e), e.now) && Dispatch(c, f, e).cfg == c.cfg
  {
    if c.Up() && f.ctl.I? {
      IPending(c, f, e);
    } else if c.Up() && f.ctl.S? && f.ctl.skind != SOther {
      if c.state == Connected {
        SConnectedPending(c, f, e);
      } else {
        SRecoveryPending(SetBusy(c, f.ctl.skind == RNR && f.ctl.nr == 0 && !f.ctl.pf), f, e);
      }
    } else {
      OtherPending(c, f, e);
    }
  }

  lemma OtherPending(c: Cb, f: Frame, e: Env)
    requires Live(c, e.now) && e.irtt >= 1 && (c.Up() ==> f.ctl.U? || (f.ctl.S? && f.ctl.skind == SOther))
    ensures Pending(Dispatch(c, f, e), e.now) && Dispatch(c, f, e).cfg == c.cfg
  {
    if c.Up() {
      if f.ctl.U? {
        UPending(c, f.ctl.ukind, f.ctl.pf, e);
      }
    } else {
      DownPending(c, f, e);
    }
  }

  lemma UPending(c: Cb, k: UKind, pf: bool, e: Env)
    requires Live(c, e.now) && c.Up()
    ensures Pending(InUpU(c, k, pf), e.now) && InUpU(c, k, pf).cfg == c.cfg
  {
  }

  lemma DownPending(c: Cb, f: Frame, e: Env)
    requires Live(c, e.now) && e.irtt >= 1 && !c.Up()
    ensures Pending(Dispatch(c, f, e), e.now) && Dispatch(c, f, e).cfg == c.cfg
  {
  }

  // Everything that can happen to a control block

  datatype Happening =
    | Frames(f: Frame)
    | T1Expires
    | T3Expires
    | Queue(fields: seq<Data>)
    | Stream(pid: byte, data: Data)
    | Read(cnt: nat, head: nat)
    | Hangup
    | Connect(mode: Mode, window: nat)

  ghost predicate Proper(h: Happening) {
    h.Queue? ==> forall i :: 0 <= i < |h.fields| ==> h.fields[i] != []
  }

  ghost function After(c: Cb, h: Happening, e: Env): Cb {
    match h
    case Frames(f) => AxInput(c, f, e)
    case T1Expires => Recover(c, e)
    case T3Expires => PollThem(c)
    case Queue(fields) => SendRaw(c, fields, e)
    case Stream(pid, data) => if c.cfg.paclen == 0 then c else SendStream(c, pid, data, e)
    case Read(cnt, head) => Recv(c, cnt, head)
    case Hangup => Disc(c)
    case Connect(mode, window) => Open(c, mode, window)
  }

  lemma ProbeLive(c: Cb, now: int)
    requires Base(c, now) && c.Up() && (!c.flags.remotebusy ==> c.unack == Min(c.cfg.maxframe, |c.txq|))
    ensures Live(SetState(TxEnq(c), Recovery), now) && Live(Probe(c), now) && Probe(c).cfg == c.cfg
  {
  }

  lemma RecoverLive(c: Cb, e: Env)
    requires Live(c, e.now)
    ensures Live(Recover(c, e), e.now) && Recover(c, e).cfg == c.cfg
  {
    if c.Up() {
      ProbeLive(BackOff(c, e), e.now);
    }
  }

  lemma PollThemLive(c: Cb, now: int)
    requires Live(c, now)
    ensures Live(PollThem(c), now) && PollThem(c).cfg == c.cfg
  {
    if c.Up() {
      ProbeLive(c.(retries := 0), now);
    }
  }

  lemma SendLive(c: Cb, fields: seq<Data>, e: Env)
    requires Live(c, e.now) && forall i :: 0 <= i < |fields| ==> fields[i] != []
    ensures Live(SendFields(c, fields, e), e.now) && SendFields(c, fields, e).cfg == c.cfg
  {
    FinishLive(Enqueue(c, fields), e);
  }

  /** The version of the peer's protocol is settled by the configuration, until a frame says that it is old. */
  function ProtoAfter(c: Cb, h: Happening): Proto {
    if h.Frames? && h.f.cmdrsp == Unknown then V1 else c.cfg.proto
  }

  lemma InputLive(c: Cb, f: Frame, e: Env)
    requires Live(c, e.now) && e.irtt >= 1
    ensures Live(Input(c, f, e), e.now) && Input(c, f, e).cfg == c.cfg
  {
    DispatchPending(c, f, e);
    FinishLive(Dispatch(c, f, e), e);
  }

  lemma StaysLive(c: Cb, h: Happening, e: Env)
    requires Live(c, e.now) && e.irtt >= 1 && Proper(h)
    ensures Live(After(c, h, e), e.now) && After(c, h, e).cfg.proto == ProtoAfter(c, h)
  {
    match h
    case Frames(f) => InputLive(Hear(c, f), f, e);
    case T1Expires => RecoverLive(c, e);
    case T3Expires => PollThemLive(c, e.now);
    case Queue(fields) => SendLive(c, fields, e);
    case Stream(pid, data) =>
      PacketizeNonEmpty(pid, data, c.cfg.paclen);
      SendLive(c, Packetize(pid, data, c.cfg.paclen), e);
    case Read(cnt, head) =>
    case Hangup =>
    case Connect(mode, window) =>
  }

  // Lives of a control block

  /** What happened and what the surroundings said, oldest first; the clock does not run backwards. */
  ghost predicate Clocked(life: seq<(Happening, Env)>, start: int) {
    && (forall i :: 0 <= i < |life| ==> start <= life[i].1.now && life[i].1.irtt >= 1 && Proper(life[i].0))
    && (forall i, j :: 0 <= i < j < |life| ==> life[i].1.now <= life[j].1.now)
  }

  ghost function Lead(c: Cb, life: seq<(Happening, Env)>): Cb
    decreases |life|
  {
    if life == [] then c else Lead(After(c, life[0].0, life[0].1), life[1..])
  }

  /** Every frame carries a sense: the peer shows itself to be of version 2. */
  ghost predicate KnownSense(life: seq<(Happening, Env)>) {
    forall i :: 0 <= i < |life| && life[i].0.Frames? ==> life[i].0.f.cmdrsp != Unknown
  }

  lemma {:induction false} LeadLive(c: Cb, life: seq<(Happening, Env)>, now: int)
    requires Live(c, now) && Clocked(life, now)
    ensures exists t :: Live(Lead(c, life), t)
    ensures KnownSense(life) ==> Lead(c, life).cfg.proto == c.cfg.proto
    decreases |life|
  {
    if life != [] {
      var (h, e) := life[0];
      assert Live(c, e.now);
      StaysLive(c, h, e);
      assert Clocked(life[1..], e.now) && (KnownSense(life) ==> KnownSense(life[1..])) by {
        assert forall i :: 0 <= i < |life[1..]| ==> life[1..][i] == life[i + 1];
      }
      LeadLive(After(c, h, e), life[1..], e.now);
      var t :| Live(Lead(After(c, h, e), life[1..]), t);
      assert Live(Lead(c, life), t);
    } else {
      assert Live(Lead(c, life), now);
    }
  }

  /**
   Through every life of a control block: while the link is up and the peer is not busy, the
   window is as full as the queue allows; T1 runs whenever a frame is unacknowledged, and in
   RECOVERY unless an old peer said it was busy. So data waiting for a peer that is not busy
   always has T1 running behind it.
   */
  lemma NeverWaitsOnNothing(cfg: Config, irtt: nat, t3init: nat, life: seq<(Happening, Env)>, start: int)
    requires 1 <= cfg.maxframe && 1 <= cfg.paclen && 1 <= irtt && Clocked(life, start)
    ensures var c := Lead(Created(cfg, irtt, t3init), life);
            && (c.Up() && !c.flags.remotebusy ==> c.unack == Min(c.cfg.maxframe, |c.txq|))
            && (c.Up() && c.unack > 0 ==> c.t1.running)
            && (c.state == Recovery && !OldPeerBusy(c) ==> c.t1.running)
            && (c.Up() && !c.flags.remotebusy && c.txq != [] ==> c.t1.running)
            && (KnownSense(life) ==> c.cfg.proto == cfg.proto)
  {
    assert Live(Created(cfg, irtt, t3init), start);
    LeadLive(Created(cfg, irtt, t3init), life, start);
  }

  // T1 in RECOVERY

  predicate Timed(c: Cb) { c.state == Recovery ==> c.t1.running }

  /** T1 runs in RECOVERY whatever happens; or, with `known`, whatever happens with a peer of version 2. */
  ghost predicate AlwaysTimed(cfg: Config, irtt: nat, t3init: nat, known: bool) {
    forall life, start :: Clocked(life, start) && (known ==> KnownSense(life)) ==> Timed(Lead(Created(cfg, irtt, t3init), life))
  }

  /**
   T1 runs in RECOVERY in every life in which all frames carry a sense if and only if the link is
   configured for version 2. Over all lives it does so for no configuration: one frame without a
   sense is enough to take the peer for an old one.
   */
  lemma RecoveryIsTimed(cfg: Config, irtt: nat, t3init: nat)
    requires 1 <= cfg.maxframe && 1 <= cfg.paclen && 1 <= irtt
    ensures AlwaysTimed(cfg, irtt, t3init, true) <==> cfg.proto == V2
    ensures !AlwaysTimed(cfg, irtt, t3init, false)
  {
    if cfg.proto == V2 {
      forall life, start | Clocked(life, start) && KnownSense(life) ensures Timed(Lead(Created(cfg, irtt, t3init), life)) {
        NeverWaitsOnNothing(cfg, irtt, t3init, life, start);
      }
    } else {
      StopsT1(cfg, irtt, t3init, Response, Env(0, 0, 1));
    }
    StopsT1(cfg, irtt, t3init, Unknown, Env(0, 0, 1));
  }

  /** Up, and a frame sent. */
  function Starting(s: CmdRsp, e: Env): seq<(Happening, Env)> {
    [(Connect(Active, 0), e), (Frames(Frame(s, U(UA, false), [])), e), (Queue([[0]]), e)]
  }

  /** T1 expired; then an RNR with N(R) = 0. */
  function Ending(s: CmdRsp, e: Env): seq<(Happening, Env)> {
    [(T1Expires, e), (Frames(Frame(s, S(RNR, 0, false), [])), e)]
  }

  function Stopping(s: CmdRsp, e: Env): seq<(Happening, Env)> { Starting(s, e) + Ending(s, e) }

  /** Any configuration for version 1, and any at all if the frames carry no sense, is left with both timers stopped. */
  lemma StopsT1(cfg: Config, irtt: nat, t3init: nat, s: CmdRsp, e: Env)
    requires 1 <= cfg.maxframe && e.irtt >= 1 && (s == Unknown || cfg.proto == V1)
    ensures Clocked(Stopping(s, e), e.now) && (s != Unknown ==> KnownSense(Stopping(s, e)))
    ensures var c := Lead(Created(cfg, irtt, t3init), Stopping(s, e));
            c.state == Recovery && c.txq == [[0]] && !c.t1.running && !c.t3.running
  {
    var c0 := Created(cfg, irtt, t3init);
    var c3 := StartsUp(c0, s, e);
    var c5 := EndsUp(c3, s, e);
    LeadAppend(c0, Starting(s, e), Ending(s, e));
    StoppingIsALife(s, e);
  }

  lemma StoppingIsALife(s: CmdRsp, e: Env)
    requires e.irtt >= 1
    ensures Clocked(Stopping(s, e), e.now) && (s != Unknown ==> KnownSense(Stopping(s, e)))
  {
  }

  lemma {:induction false} LeadAppend(c: Cb, a: seq<(Happening, Env)>, b: seq<(Happening, Env)>)
    ensures Lead(c, a + b) == Lead(Lead(c, a), b)
    decreases |a|
  {
    if a == [] {
      assert a + b == b;
    } else {
      assert (a + b)[0] == a[0] && (a + b)[1..] == a[1..] + b;
      LeadAppend(After(c, a[0].0, a[0].1), a[1..], b);
    }
  }

  lemma StartsUp(c: Cb, s: CmdRsp, e: Env) returns (r: Cb)
    requires c.state == Disconnected && c.txq == [] && (s == Unknown || c.cfg.proto == V1) && 1 <= c.cfg.maxframe
    ensures r == Lead(c, Starting(s, e))
    ensures r.state == Connected && r.txq == [[0]] && r.unack == 1 && r.vs == 1 && r.retries == 0 && r.cfg.proto == V1
  {
    var r2 := ComesUp(c, Frame(s, U(UA, false), []), e);
    r := QueuesOne(r2, e);
    LeadTo([c, After(c, Connect(Active, 0), e), r2, r], Starting(s, e));
  }

  lemma EndsUp(c: Cb, s: CmdRsp, e: Env) returns (r: Cb)
    requires c.state == Connected && c.txq == [[0]] && c.unack == 1 && c.vs == 1 && c.retries == 0 && c.cfg.proto == V1
    ensures r == Lead(c, Ending(s, e))
    ensures r.state == Recovery && r.txq == [[0]] && !r.t1.running && !r.t3.running
  {
    var r1 := TimesOut(c, e);
    r := BusyStops(r1, Frame(s, S(RNR, 0, false), []), e);
    LeadTo([c, r1, r], Ending(s, e));
  }

  /** Each state leads to the next. */
  ghost predicate Leads(cs: seq<Cb>, life: seq<(Happening, Env)>) {
    |cs| == |life| + 1 && forall i :: 0 <= i < |life| ==> After(cs[i], life[i].0, life[i].1) == cs[i + 1]
  }

  lemma {:induction false} LeadTo(cs: seq<Cb>, life: seq<(Happening, Env)>)
    requires Leads(cs, life)
    ensures Lead(cs[0], life) == cs[|life|]
    decreases |life|
  {
    if life != [] {
      LeadTo(cs[1..], life[1..]);
    }
  }

  lemma ComesUp(c: Cb, ua: Frame, e: Env) returns (r: Cb)
    requires c.state == Disconnected && c.txq == [] && ua.ctl == U(UA, false) && (ua.cmdrsp == Unknown || c.cfg.proto == V1)
    ensures r == After(After(c, Connect(Active, 0), e), Frames(ua), e)
    ensures r.state == Connected && r.txq == [] && r.unack == 0 && r.vs == 0 && !r.flags.remotebusy
    ensures r.retries == 0 && r.cfg.proto == V1 && r.cfg.maxframe == c.cfg.maxframe
  {
    var c1 := Connects(c, e);
    var d := Dispatch(Hear(c1, ua), ua, e);
    assert SendLoop(d, e) == d;
    r := After(c1, Frames(ua), e);
  }

  lemma Connects(c: Cb, e: Env) returns (r: Cb)
    requires c.state == Disconnected
    ensures r == After(c, Connect(Active, 0), e)
    ensures r.state == Setup && r.txq == c.txq && !r.flags.remotebusy && r.retries == 0 && r.response == NoResponse
    ensures r.cfg == c.cfg.(window := 0)
  {
    r := After(c, Connect(Active, 0), e);
  }

  /** Queueing one I-field on an idle link sends it. */
  lemma QueuesOne(c: Cb, e: Env) returns (r: Cb)
    requires c.state == Connected && c.txq == [] && c.unack == 0 && c.vs == 0 && !c.flags.remotebusy && 1 <= c.cfg.maxframe
    ensures r == After(c, Queue([[0]]), e)
    ensures r.state == Connected && r.txq == [[0]] && r.unack == 1 && r.vs == 1
    ensures r.cfg == c.cfg && r.retries == c.retries
  {
    var q := Enqueue(c, [[0]]);
    r := SendNext(q, e);
    assert q.txq == [[0]] && r.unack == 1;
    assert SendLoop(r, e) == r && SendLoop(q, e) == r;
  }

  lemma TimesOut(c: Cb, e: Env) returns (r: Cb)
    requires c.state == Connected && c.txq == [[0]] && c.unack == 1 && c.vs == 1 && c.retries == 0 && c.cfg.proto == V1
    ensures r == After(c, T1Expires, e)
    ensures r.state == Recovery && r.txq == [[0]] && r.unack == 1 && r.vs == 1
    ensures !r.t3.running && r.response == NoResponse && r.cfg == c.cfg
  {
    r := After(c, T1Expires, e);
  }

  lemma BusyStops(c: Cb, rnr: Frame, e: Env) returns (r: Cb)
    requires c.state == Recovery && c.cfg.proto == V1 && c.unack == 1 && c.vs == 1 && c.txq == [[0]]
    requires rnr.ctl == S(RNR, 0, false) && !c.t3.running && c.response == NoResponse
    ensures r == After(c, Frames(rnr), e)
    ensures r.state == Recovery && r.txq == [[0]] && !r.t1.running && !r.t3.running
  {
    r := After(c, Frames(rnr), e);
    var d := SetBusy(Hear(c, rnr), true).(t1 := Stop(c.t1));
    assert AckLoop(d, 0, 0, e) == (d, true);
  }
}
