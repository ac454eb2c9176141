module LapbSpec {
  // The link control block of one LAPB endpoint as a value, and what each entry point of the
  // protocol (lapb.c, lapbtime.c, ax25user.c) makes of it. `LapbMachine` proves that the
  // control block updated in place computes exactly these functions.
  // 
  // `hist` is a history: every I-field ever put on the transmit
  // queue, how many of them `ackours` has freed, and every I-field handed to `procdata`. They
  // steer nothing. A `Wire` records, next to a frame as transmitted, the unbounded numbers its
  // modulo-8 fields abbreviate; the receiver is given the frame alone.

  import opened Bytes
  import opened LapbFrame

  datatype LinkState = Disconnected | Listen | Setup | DiscPending | Connected | Recovery

  datatype Proto = V1 | V2

  datatype Reason = LbNormal | LbDm | LbTimeout

  /** The source's `response`: the S or U frame owed to the other end. */
  datatype Response = NoResponse | OweRR | OweRNR | OweUA

  datatype Wire = Wire(frame: Frame, ns: nat, nr: nat)

  /** What the machine is told by its surroundings at one step. */
  datatype Env = Env(now: int, blimit: nat, irtt: nat)

  // Timers (timer.c): duration in ticks; a zero duration disables the timer.

  datatype Timer = Timer(running: bool, duration: int)

  const MSPTICK := 55

  function SetTimer(t: Timer, ms: int): Timer {
    t.(duration := if ms != 0 then 1 + (ms + MSPTICK - 1) / MSPTICK else 0)
  }

  function Start(t: Timer): Timer { t.(running := t.duration != 0) }

  function Stop(t: Timer): Timer { t.(running := false) }

  /** A call of `handleit`: the protocol identifier (-1 when there was none) and the rest. */
  datatype Upcall = Upcall(pid: int, data: Data)

  const PID_NO_L3 := 0xf0

  const PID_SEGMENT := 0x08

  /** The receiving half of the segmentation sublayer and what it hands upstairs. */
  datatype Assembler = Assembler(segremain: nat, rxasm: Data, rxq: Data, upcalls: seq<Upcall>)

  datatype Config = Config(maxframe: nat, paclen: nat, window: nat, pthresh: nat, n2: nat, proto: Proto)

  datatype Flags = Flags(rejsent: bool, remotebusy: bool, rttrun: bool, retrans: bool)

  /** Round-trip timing: the frame being timed, when it went out, and the two integrators. */
  datatype Rtt = Rtt(seqno: nat, time: int, srt: int, mdev: int)

  datatype History = History(queued: seq<Data>, freed: nat, accepted: seq<Data>)

  datatype Cb = Cb(
    state: LinkState, vs: nat, vr: nat, unack: nat, txq: seq<Data>, flags: Flags,
    response: Response, reason: Reason, t1: Timer, t3: Timer, retries: nat, rtt: Rtt,
    asm: Assembler, cfg: Config, sent: seq<Wire>, hist: History)
  {
    predicate Up() { state == Connected || state == Recovery }

    predicate Full() { |asm.rxq| >= cfg.window }
  }

  /** `cr_ax25` */
  function Created(cfg: Config, irtt: nat, t3init: nat): Cb {
    Cb(Disconnected, 0, 0, 0, [], Flags(false, false, false, false), NoResponse, LbNormal,
       SetTimer(Timer(false, 0), 2 * irtt), SetTimer(Timer(false, 0), t3init), 0,
       Rtt(0, 0, irtt, 0), Assembler(0, [], [], []), cfg, [], History([], 0, []))
  }

  // procdata and handleit (lapb.c 567-680, axnl3 682-698)

  /** `PULLCHAR`: the first octet, or -1 when there is none. */
  function PullChar(d: Data): (int, Data) {
    if d == [] then (-1, []) else (d[0], d[1..])
  }

  /** The source masks the possibly negative result of `PULLCHAR`. */
  function SegRem(seqno: int): nat { if seqno < 0 then 127 else seqno % 128 }

  predicate SegFirst(seqno: int) { seqno < 0 || seqno / 128 % 2 == 1 }

  function HandleIt(a: Assembler, pid: int, d: Data): Assembler {
    a.(upcalls := a.upcalls + [Upcall(pid, d)], rxq := if pid == PID_NO_L3 then a.rxq + d else a.rxq)
  }

  function ProcData(a: Assembler, d: Data): Assembler {
    var (pid, d1) := PullChar(d);
    if pid == -1 then a
    else if a.segremain != 0 then
      var (seqno, d2) := PullChar(d1);
      if pid == PID_SEGMENT && SegRem(seqno) == a.segremain - 1 then
        var whole := a.rxasm + d2;
        if SegRem(seqno) == 0 then
          var (p, d3) := PullChar(whole);
          HandleIt(a.(segremain := 0, rxasm := []), p, d3)
        else a.(segremain := SegRem(seqno), rxasm := whole)
      else a.(segremain := 0, rxasm := [])
    else if pid == PID_SEGMENT then
      var (seqno, d2) := PullChar(d1);
      if !SegFirst(seqno) then a else a.(segremain := SegRem(seqno), rxasm := d2)
    else HandleIt(a, pid, d1)
  }

  // Frame output (lapb.c 440-546)

  function Put(c: Cb, w: Wire): Cb { c.(sent := c.sent + [w]) }

  function SendU(c: Cb, cr: CmdRsp, k: UKind, pf: bool): Cb {
    Put(c, Wire(Frame(cr, U(k, pf), []), 0, 0))
  }

  function SendS(c: Cb, cr: CmdRsp, k: SKind, pf: bool): Cb {
    Put(c, Wire(Frame(cr, S(k, c.vr, pf), []), 0, |c.hist.accepted|))
  }

  function ClrEx(c: Cb): Cb {
    c.(flags := c.flags.(remotebusy := false, rejsent := false), response := NoResponse, t3 := Stop(c.t3))
  }

  function EstLink(c: Cb): Cb {
    var c1 := SendU(ClrEx(c).(retries := 0), Command, SABM, true);
    c1.(t3 := Stop(c1.t3), t1 := Start(c1.t1))
  }

  function Ready(c: Cb): SKind { if c.Full() then RNR else RR }

  function EnqResp(c: Cb): Cb {
    var c1 := SendS(c, LapbFrame.Response, Ready(c), true);
    c1.(response := NoResponse, t3 := Stop(c1.t3))
  }

  function InvRex(c: Cb): Cb { c.(vs := (c.vs - c.unack) % 8, unack := 0) }

  function SetState(c: Cb, s: LinkState): Cb {
    if s == Disconnected then c.(state := s, t1 := Stop(c.t1), t3 := Stop(c.t3), txq := [])
    else c.(state := s)
  }

  function StartTiming(c: Cb, seqno: nat, e: Env): Cb {
    if c.flags.rttrun then c
    else c.(rtt := c.rtt.(seqno := seqno, time := e.now), flags := c.flags.(rttrun := true))
  }

  function RunT1(c: Cb): Cb {
    if c.t1.running then c else c.(t3 := Stop(c.t3), t1 := Start(c.t1))
  }

  function Emit(c: Cb, seqno: nat): Cb
    requires c.unack < |c.txq|
  {
    var w := Wire(Frame(Command, I(seqno, c.vr, false), c.txq[c.unack]), c.hist.freed + c.unack, |c.hist.accepted|);
    Put(c, w).(unack := c.unack + 1, response := NoResponse)
  }

  /** One pass of the loop of `lapb_output`. */
  function SendNext(c: Cb, e: Env): Cb
    requires c.unack < |c.txq|
  {
    StartTiming(RunT1(Emit(c.(vs := (c.vs + 1) % 8), c.vs)), c.vs, e)
  }

  /** The loop of `lapb_output`; an empty I-field makes `dup_p` fail after V(S) has moved. */
  function SendLoop(c: Cb, e: Env): Cb
    decreases c.cfg.maxframe - c.unack
  {
    if c.unack < |c.txq| && c.unack < c.cfg.maxframe then
      if c.txq[c.unack] == [] then c.(vs := (c.vs + 1) % 8) else SendLoop(SendNext(c, e), e)
    else c
  }

  function Output(c: Cb, e: Env): Cb {
    if !c.Up() || c.flags.remotebusy then c else SendLoop(c, e)
  }

  // ackours (lapb.c 366-427)

  function Abs(x: int): int { if x < 0 then -x else x }

  function Measure(c: Cb, e: Env): Cb {
    var rtt := e.now - c.rtt.time;
    var srt := (c.rtt.srt * 7 + rtt + 4) / 8;
    var mdev := (c.rtt.mdev * 3 + Abs(rtt - c.rtt.srt) + 2) / 4;
    c.(rtt := c.rtt.(srt := srt, mdev := mdev), t1 := SetTimer(c.t1, 4 * mdev + srt))
  }

  function EndTiming(c: Cb, e: Env): Cb {
    var c1 := c.(flags := c.flags.(rttrun := false));
    if c1.flags.retrans then c1 else Measure(c1, e)
  }

  /** One pass of the loop of `ackours`: free the oldest frame, whose number is `oldest`. */
  function FreeOne(c: Cb, oldest: nat, e: Env): Cb
    requires c.txq != [] && c.unack > 0
  {
    var c1 := c.(txq := c.txq[1..], unack := c.unack - 1, hist := c.hist.(freed := c.hist.freed + 1));
    var c2 := if c1.flags.rttrun && c1.rtt.seqno == oldest then EndTiming(c1, e) else c1;
    c2.(flags := c2.flags.(retrans := false), retries := 0)
  }

  function AckLoop(c: Cb, oldest: nat, n: nat, e: Env): (Cb, bool)
    decreases c.unack
  {
    if c.unack == 0 || oldest == n then (c, true)
    else if c.txq == [] then (c, false)
    else AckLoop(FreeOne(c, oldest, e), (oldest + 1) % 8, n, e)
  }

  function AckTimers(before: Cb, c: Cb): Cb {
    if c.unack == 0 then c.(t1 := Stop(c.t1), t3 := Start(c.t3))
    else if c.unack != before.unack then c.(t1 := Start(c.t1))
    else c
  }

  function AckOurs(c: Cb, n: nat, e: Env): Cb {
    var (c1, ok) := AckLoop(c, (c.vs - c.unack) % 8, n, e);
    if ok then AckTimers(c, c1) else c1
  }

  // lapb_input (lapb.c 21-361)

  function SetBusy(c: Cb, b: bool): Cb { c.(flags := c.flags.(remotebusy := b)) }

  function SetRejSent(c: Cb, b: bool): Cb { c.(flags := c.flags.(rejsent := b)) }

  predicate Poll(f: Frame) { f.ctl.pf && f.cmdrsp == Command }

  predicate Final(f: Frame) { f.ctl.pf && f.cmdrsp == LapbFrame.Response }

  function ResetCounters(c: Cb): Cb { c.(unack := 0, vr := 0, vs := 0) }

  function InDisconnected(c: Cb, f: Frame, e: Env): Cb {
    match f.ctl
    case U(SABM, pf) =>
      var c1 := SetState(ResetCounters(ClrEx(SendU(c, LapbFrame.Response, UA, pf))), Connected);
      c1.(rtt := c1.rtt.(srt := e.irtt, mdev := 0), t1 := SetTimer(c1.t1, 2 * e.irtt), t3 := Start(c1.t3))
    case U(DM, _) => c
    case _ => if Poll(f) then SendU(c, LapbFrame.Response, DM, f.ctl.pf) else c
  }

  function InSetup(c: Cb, f: Frame): Cb {
    match f.ctl
    case U(SABM, pf) => SendU(c, LapbFrame.Response, UA, pf)
    case U(DISC, pf) => SendU(c, LapbFrame.Response, DM, pf)
    case U(UA, _) =>
      SetState(ResetCounters(c.(t1 := Stop(c.t1), t3 := Start(c.t3))), Connected)
    case U(DM, _) =>
      SetState(c.(txq := [], t1 := Stop(c.t1), reason := LbDm), Disconnected)
    case _ => c
  }

  function InDiscPending(c: Cb, f: Frame): Cb {
    match f.ctl
    case U(SABM, pf) => SendU(c, LapbFrame.Response, DM, pf)
    case U(DISC, pf) => SendU(c, LapbFrame.Response, UA, pf)
    case U(UA, _) => SetState(c.(t1 := Stop(c.t1)), Disconnected)
    case U(DM, _) => SetState(c.(t1 := Stop(c.t1)), Disconnected)
    case _ => if Poll(f) then SendU(c, LapbFrame.Response, DM, f.ctl.pf) else c
  }

  /** U frames while the link is up; only SABM and DISC differ between the two states. */
  function InUpU(c: Cb, k: UKind, pf: bool): Cb {
    match k
    case SABM =>
      var c1 := ClrEx(SendU(c, LapbFrame.Response, UA, pf));
      var c2 := if c.state == Connected then c1.(txq := []) else c1;
      SetState(ResetCounters(c2.(t1 := Stop(c2.t1), t3 := Start(c2.t3))), Connected)
    case DISC =>
      var c1 := SendU(c.(txq := []), LapbFrame.Response, UA, pf);
      var c2 := c1.(t1 := Stop(c1.t1), t3 := Stop(c1.t3),
                    response := if c.state == Recovery then OweUA else c1.response, reason := LbNormal);
      SetState(c2, Disconnected)
    case DM => SetState(c.(reason := LbDm), Disconnected)
    case UA => SetState(EstLink(c), Setup)
    case FRMR => SetState(EstLink(c), Setup)
    case UOther(_) => c
  }

  function Answer(c: Cb, f: Frame): Cb { if Poll(f) then EnqResp(c) else c }

  function InReadyConnected(c: Cb, f: Frame, e: Env): Cb
    requires f.ctl.S?
  {
    var busy := f.ctl.skind == RNR && f.ctl.nr == 0 && !f.ctl.pf;
    AckOurs(Answer(SetBusy(c, busy), f), f.ctl.nr, e)
  }

  function InRejConnected(c: Cb, f: Frame, e: Env): Cb
    requires f.ctl.S?
  {
    var c1 := AckOurs(Answer(SetBusy(c, false), f), f.ctl.nr, e);
    InvRex(c1.(t1 := Stop(c1.t1), t3 := Start(c1.t3)))
  }

  function KeepT1(c: Cb): Cb { if c.t1.running then c else c.(t1 := Start(c.t1)) }

  /** RR, RNR and REJ in RECOVERY, after `remotebusy` has been set. */
  function InSRecovery(c: Cb, f: Frame, e: Env): Cb
    requires f.ctl.S?
  {
    if c.cfg.proto == V1 || Final(f) then
      var c1 := AckOurs(c.(t1 := Stop(c.t1)), f.ctl.nr, e);
      if c1.unack != 0 then InvRex(c1) else SetState(c1.(t3 := Start(c1.t3)), Connected)
    else
      var c1 := AckOurs(Answer(c, f), f.ctl.nr, e);
      KeepT1(if f.ctl.skind == REJ && c1.unack != 0 then InvRex(c1) else c1)
  }

  function OutOfSequence(c: Cb, f: Frame): Cb {
    var c1 := if c.cfg.proto == V1 || !c.flags.rejsent then
                SendS(SetRejSent(c, true), LapbFrame.Response, REJ, f.ctl.pf)
              else Answer(c, f);
    c1.(response := NoResponse)
  }

  function Accept(c: Cb, d: Data): Cb {
    SetRejSent(c, false).(vr := (c.vr + 1) % 8, hist := c.hist.(accepted := c.hist.accepted + [d]))
  }

  /** The sequence check and acceptance shared by I frames in both states. */
  function Receive(c: Cb, f: Frame): Cb
    requires f.ctl.I?
  {
    if f.ctl.ns != c.vr then OutOfSequence(c, f)
    else
      var c1 := Accept(c, f.info);
      var c2 := if Poll(f) then SendS(c1, LapbFrame.Response, Ready(c1), true)
                else c1.(response := if c1.Full() then OweRNR else OweRR);
      c2.(asm := ProcData(c2.asm, f.info))
  }

  function InIConnected(c: Cb, f: Frame, e: Env): Cb
    requires f.ctl.I?
  {
    var c1 := AckOurs(c, f.ctl.nr, e);
    if c1.Full() then
      if Poll(f) then SendS(c1, LapbFrame.Response, RNR, f.ctl.pf) else c1
    else Receive(c1, f)
  }

  function InIRecovery(c: Cb, f: Frame, e: Env): Cb
    requires f.ctl.I?
  {
    var c1 := KeepT1(AckOurs(c, f.ctl.nr, e));
    if c1.Full() then SendS(c1, LapbFrame.Response, RNR, f.ctl.pf) else Receive(c1, f)
  }

  function InUp(c: Cb, f: Frame, e: Env): Cb {
    match f.ctl
    case U(k, pf) => InUpU(c, k, pf)
    case I(_, _, _) => if c.state == Connected then InIConnected(c, f, e) else InIRecovery(c, f, e)
    case S(SOther, _, _) => c
    case S(k, nr, pf) =>
      if c.state == Connected then
        if k == REJ then InRejConnected(c, f, e) else InReadyConnected(c, f, e)
      else InSRecovery(SetBusy(c, k == RNR && nr == 0 && !pf), f, e)
  }

  function Dispatch(c: Cb, f: Frame, e: Env): Cb {
    match c.state
    case Disconnected => InDisconnected(c, f, e)
    case Listen => c
    case Setup => InSetup(c, f)
    case DiscPending => InDiscPending(c, f)
    case _ => InUp(c, f, e)
  }

  /** Send the owed response unless `lapb_output` piggybacked it. */
  function Flush(c: Cb): Cb {
    var c1 := match c.response
              case NoResponse => c
              case OweRR => SendS(c, LapbFrame.Response, RR, false)
              case OweRNR => SendS(c, LapbFrame.Response, RNR, false)
              case OweUA => SendU(c, LapbFrame.Response, UA, false);
    c1.(response := NoResponse)
  }

  function Input(c: Cb, f: Frame, e: Env): Cb { Flush(Output(Dispatch(c, f, e), e)) }

  /** The end of `ax_recv`: a frame whose addresses carry no sense comes from an old peer. */
  function Hear(c: Cb, f: Frame): Cb {
    if f.cmdrsp == Unknown then c.(cfg := c.cfg.(proto := V1)) else c
  }

  function AxInput(c: Cb, f: Frame, e: Env): Cb { Input(Hear(c, f), f, e) }

  // Timer expiries (lapbtime.c)

  function TxEnq(c: Cb): Cb {
    var c1 := if c.txq != [] && (|c.txq[0]| < c.cfg.pthresh || c.cfg.proto == V1) then
                Put(c, Wire(Frame(Command, I((c.vs - c.unack) % 8, c.vr, true), c.txq[0]), c.hist.freed, |c.hist.accepted|))
              else SendS(c, Command, Ready(c), true);
    c1.(response := NoResponse, t3 := Stop(c1.t3), t1 := Start(c1.t1))
  }

  function Pow2(n: nat): nat { if n == 0 then 1 else 2 * Pow2(n - 1) }

  function GivesUp(c: Cb): bool { c.cfg.n2 != 0 && c.retries > c.cfg.n2 }

  function BackOff(c: Cb, e: Env): Cb {
    var c1 := c.(flags := c.flags.(retrans := true), retries := c.retries + 1);
    if Pow2(c1.retries) < e.blimit then c1.(t1 := SetTimer(c1.t1, c1.t1.duration * MSPTICK * 2)) else c1
  }

  function Recover(c: Cb, e: Env): Cb {
    var c2 := BackOff(c, e);
    match c.state
    case Setup => RetryU(c2, SABM, GivesUp(c2))
    case DiscPending => RetryU(c2, DISC, GivesUp(c2))
    case Connected => Probe(c2)
    case Recovery => Probe(c2)
    case _ => c2
  }

  /** Repeat the request that brings the link up or down, or drop it. */
  function RetryU(c: Cb, k: UKind, over: bool): Cb {
    if over then SetState(c.(txq := if c.state == Setup then [] else c.txq, reason := LbTimeout), Disconnected)
    else
      var c1 := SendU(c, Command, k, true);
      c1.(t1 := Start(c1.t1))
  }

  function Probe(c: Cb): Cb {
    if GivesUp(c) then
      SetState(SendU(c, LapbFrame.Response, DM, true).(txq := [], reason := LbTimeout), Disconnected)
    else SetState(TxEnq(c), Recovery)
  }

  function PollThem(c: Cb): Cb {
    if c.cfg.proto == V1 || c.state != Connected then c
    else SetState(TxEnq(c.(retries := 0)), Recovery)
  }

  // User steps (ax25user.c)

  /** Stream mode of `send_ax25`: I-fields of at most `paclen` octets behind a PID each. */
  function Packetize(pid: byte, d: Data, paclen: nat): seq<Data>
    requires paclen > 0
    decreases |d|
  {
    if d == [] then []
    else
      var n := Min(|d|, paclen);
      [[pid] + d[..n]] + Packetize(pid, d[n..], paclen)
  }

  lemma {:induction false} PacketizeNonEmpty(pid: byte, d: Data, paclen: nat)
    requires paclen > 0
    ensures forall i :: 0 <= i < |Packetize(pid, d, paclen)| ==> Packetize(pid, d, paclen)[i] != []
    decreases |d|
  {
    if d != [] {
      PacketizeNonEmpty(pid, d[Min(|d|, paclen)..], paclen);
    }
  }

  function Enqueue(c: Cb, fields: seq<Data>): Cb {
    c.(txq := c.txq + fields, hist := c.hist.(queued := c.hist.queued + fields))
  }

  function SendFields(c: Cb, fields: seq<Data>, e: Env): Cb { Output(Enqueue(c, fields), e) }

  /** `send_ax25` without a PID: a null queue is refused before any output is tried. */
  function SendRaw(c: Cb, fields: seq<Data>, e: Env): Cb {
    if fields == [] then c else SendFields(c, fields, e)
  }

  function SendStream(c: Cb, pid: byte, d: Data, e: Env): Cb
    requires c.cfg.paclen > 0
  {
    SendFields(c, Packetize(pid, d, c.cfg.paclen), e)
  }

  /** How many octets `recv_ax25` takes; a count of zero means all of them. */
  function Taken(c: Cb, cnt: nat): nat {
    if cnt == 0 then |c.asm.rxq| else Min(cnt, |c.asm.rxq|)
  }

  /**
   `recv_ax25`. The test that reopens the window adds the size of the first mbuf of what was
   taken; after a read of everything that is only `head`, the first mbuf of the old queue.
   */
  function Recv(c: Cb, cnt: nat, head: nat): Cb {
    if c.asm.rxq == [] then c
    else
      var c1 := c.(asm := c.asm.(rxq := c.asm.rxq[Taken(c, cnt)..]));
      var got := if cnt == 0 then head else Taken(c, cnt);
      if !c1.Full() && |c1.asm.rxq| + got >= c.cfg.window then SendS(c1, LapbFrame.Response, RR, false) else c1
  }

  function Disc(c: Cb): Cb {
    match c.state
    case DiscPending => SetState(c, Disconnected)
    case Connected => SendDisc(c)
    case Recovery => SendDisc(c)
    case _ => c
  }

  function DiscTimers(c: Cb): Cb {
    var c1 := SendU(c, Command, DISC, true);
    SetState(c1.(t3 := Stop(c1.t3), t1 := Start(c1.t1)), DiscPending)
  }

  function SendDisc(c: Cb): Cb {
    DiscTimers(c.(txq := [], retries := 0))
  }

  datatype Mode = Active | Passive | Server

  /**
   `open_ax25` on an existing control block. It is refused in every state but DISCONNECTED, so the
   arms of its switch for the other states are never taken.
   */
  function Open(c: Cb, mode: Mode, window: nat): Cb {
    if c.state != Disconnected then c
    else
      var c1 := c.(cfg := c.cfg.(window := window));
      if mode == Active then SetState(EstLink(c1), Setup) else c1.(state := Listen)
  }
}
