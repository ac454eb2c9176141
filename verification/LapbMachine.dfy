module LapbMachine {
  // The control block of lapb.h as an object, and the routines that update it in place.
  // Every method is proved to compute the function of `LapbSpec` that specifies it. Frames given
  // to `axsend` and calls of `handleit` are recorded in the ghost logs `sent` and `upcalls`.

  import opened Bytes
  import opened LapbFrame
  import opened LapbSpec

  class AxCb {
    var state: LinkState
    var vs: nat
    var vr: nat
    var unack: nat
    var txq: seq<Data>
    var flags: Flags
    var response: Response
    var reason: Reason
    var t1: Timer
    var t3: Timer
    var retries: nat
    var rtt: Rtt
    var asm: Assembler
    var cfg: Config
    ghost var sent: seq<Wire>
    ghost var hist: History

    ghost function Value(): Cb
      reads this
    {
      Cb(state, vs, vr, unack, txq, flags, response, reason, t1, t3, retries, rtt, asm, cfg, sent, hist)
    }

    /** `cr_ax25`: a fresh control block with the defaults filled in. */
    constructor (cfg: Config, irtt: nat, t3init: nat)
      ensures Value() == Created(cfg, irtt, t3init)
    {
      this.cfg := cfg;
      state, vs, vr, unack, txq := Disconnected, 0, 0, 0, [];
      flags, response, reason := Flags(false, false, false, false), NoResponse, LbNormal;
      t1, t3 := SetTimer(Timer(false, 0), 2 * irtt), SetTimer(Timer(false, 0), t3init);
      retries, rtt, asm := 0, Rtt(0, 0, irtt, 0), Assembler(0, [], [], []);
      sent, hist := [], History([], 0, []);
    }

    // Output of single frames

    method SendCtlU(cr: CmdRsp, k: UKind, pf: bool)
      modifies this
      ensures Value() == SendU(old(Value()), cr, k, pf)
    {
      sent := sent + [Wire(Frame(cr, U(k, pf), []), 0, 0)];
    }

    method SendCtlS(cr: CmdRsp, k: SKind, pf: bool)
      modifies this
      ensures Value() == SendS(old(Value()), cr, k, pf)
    {
      sent := sent + [Wire(Frame(cr, S(k, vr, pf), []), 0, |hist.accepted|)];
    }

    method ClearExceptions()
      modifies this
      ensures Value() == ClrEx(old(Value()))
    {
      flags := flags.(remotebusy := false, rejsent := false);
      response := NoResponse;
      t3 := Stop(t3);
    }

    method EstablishLink()
      modifies this
      ensures Value() == EstLink(old(Value()))
    {
      ClearExceptions();
      retries := 0;
      SendCtlU(Command, SABM, true);
      t3 := Stop(t3);
      t1 := Start(t1);
    }

    method EnquiryResponse()
      modifies this
      ensures Value() == EnqResp(old(Value()))
    {
      var ctl := if |asm.rxq| >= cfg.window then RNR else RR;
      SendCtlS(LapbFrame.Response, ctl, true);
      response := NoResponse;
      t3 := Stop(t3);
    }

    method InvokeRetransmission()
      modifies this
      ensures Value() == InvRex(old(Value()))
    {
      vs := (vs - unack) % 8;
      unack := 0;
    }

    method ZeroCounters()
      modifies this
      ensures Value() == ResetCounters(old(Value()))
    {
      unack, vr, vs := 0, 0, 0;
    }

    method LapbState(s: LinkState)
      modifies this
      ensures Value() == SetState(old(Value()), s)
    {
      state := s;
      if s == Disconnected {
        StopTimers();
        txq := [];
      }
    }

    method StopTimers()
      modifies this
      ensures Value() == old(Value()).(t1 := Stop(old(t1)), t3 := Stop(old(t3)))
    {
      t1 := Stop(t1);
      t3 := Stop(t3);
    }

    // lapb_output

    method LapbOutput(e: Env) returns (count: nat)
      modifies this
      ensures Value() == Output(old(Value()), e)
      ensures old(Value().Up() && !flags.remotebusy) ==> unack == old(unack) + count
    {
      count := 0;
      if (state != Recovery && state != Connected) || flags.remotebusy {
        return;
      }
      while unack < |txq| && unack < cfg.maxframe
        invariant unack == old(unack) + count
        invariant SendLoop(Value(), e) == SendLoop(old(Value()), e)
        decreases cfg.maxframe - unack
      {
        if txq[unack] == [] {
          vs := (vs + 1) % 8;
          return;
        }
        TransmitNext(e);
        count := count + 1;
      }
    }

    /** One pass of the loop: send the first unsent frame of the queue. */
    method TransmitNext(e: Env)
      requires unack < |txq|
      modifies this
      ensures Value() == SendNext(old(Value()), e) && unack == old(unack) + 1 && cfg == old(cfg)
    {
      var seqno := vs;
      vs := (vs + 1) % 8;
      EmitI(seqno);
      ArmT1();
      TimeFrame(seqno, e);
    }

    method EmitI(seqno: nat)
      requires unack < |txq|
      modifies this
      ensures Value() == Emit(old(Value()), seqno)
    {
      sent := sent + [Wire(Frame(Command, I(seqno, vr, false), txq[unack]), hist.freed + unack, |hist.accepted|)];
      unack := unack + 1;
      response := NoResponse;
    }

    method ArmT1()
      modifies this
      ensures Value() == RunT1(old(Value()))
    {
      if !t1.running {
        t3 := Stop(t3);
        t1 := Start(t1);
      }
    }

    method TimeFrame(seqno: nat, e: Env)
      modifies this
      ensures Value() == StartTiming(old(Value()), seqno, e)
    {
      if !flags.rttrun {
        rtt := rtt.(seqno := seqno, time := e.now);
        flags := flags.(rttrun := true);
      }
    }

    // ackours

    /** Returns false where the source returns -1: an unsent frame was acknowledged. */
    method AckOurs(n: nat, e: Env) returns (ok: bool)
      modifies this
      ensures Value() == LapbSpec.AckOurs(old(Value()), n, e)
      ensures !ok ==> txq == [] && unack != 0
    {
      ghost var before := Value();
      var acked := 0;
      var oldest: nat := (vs - unack) % 8;
      while unack != 0 && oldest != n
        invariant AckLoop(Value(), oldest, n, e) == AckLoop(before, (before.vs - before.unack) % 8, n, e)
        invariant unack + acked == before.unack
        decreases unack
      {
        if txq == [] {
          return false;
        }
        FreeOldest(oldest, e);
        acked := acked + 1;
        oldest := (oldest + 1) % 8;
      }
      if unack == 0 {
        t1 := Stop(t1);
        t3 := Start(t3);
      } else if acked != 0 {
        t1 := Start(t1);
      }
      return true;
    }

    method FreeOldest(oldest: nat, e: Env)
      requires txq != [] && unack > 0
      modifies this
      ensures Value() == FreeOne(old(Value()), oldest, e)
    {
      txq := txq[1..];
      unack := unack - 1;
      hist := hist.(freed := hist.freed + 1);
      if flags.rttrun && rtt.seqno == oldest {
        FinishTiming(e);
      }
      flags := flags.(retrans := false);
      retries := 0;
    }

    /** The frame being timed has been acknowledged; a retransmitted one tells nothing. */
    method FinishTiming(e: Env)
      modifies this
      ensures Value() == EndTiming(old(Value()), e)
    {
      flags := flags.(rttrun := false);
      if !flags.retrans {
        UpdateRtt(e);
      }
    }

    method UpdateRtt(e: Env)
      modifies this
      ensures Value() == Measure(old(Value()), e)
    {
      var sample := e.now - rtt.time;
      var abserr := if sample > rtt.srt then sample - rtt.srt else rtt.srt - sample;
      rtt := rtt.(srt := (rtt.srt * 7 + sample + 4) / 8, mdev := (rtt.mdev * 3 + abserr + 2) / 4);
      t1 := SetTimer(t1, 4 * rtt.mdev + rtt.srt);
    }

    // procdata and handleit

    method HandleUp(pid: int, d: Data)
      modifies this`asm
      ensures asm == HandleIt(old(asm), pid, d)
    {
      asm := asm.(upcalls := asm.upcalls + [Upcall(pid, d)]);
      if pid == PID_NO_L3 {
        asm := asm.(rxq := asm.rxq + d);
      }
    }

    method ProcessData(d: Data)
      modifies this`asm
      ensures asm == ProcData(old(asm), d)
    {
      var pid, bp := Pull(d);
      if pid == -1 {
        return;
      }
      if asm.segremain != 0 {
        var seqno;
        seqno, bp := Pull(bp);
        if pid == PID_SEGMENT && SegRem(seqno) == asm.segremain - 1 {
          asm := asm.(rxasm := asm.rxasm + bp, segremain := SegRem(seqno));
          if asm.segremain == 0 {
            bp := asm.rxasm;
            asm := asm.(rxasm := []);
            pid, bp := Pull(bp);
            HandleUp(pid, bp);
          }
        } else {
          asm := asm.(rxasm := [], segremain := 0);
        }
      } else if pid == PID_SEGMENT {
        var seqno;
        seqno, bp := Pull(bp);
        if SegFirst(seqno) {
          asm := asm.(segremain := SegRem(seqno), rxasm := bp);
        }
      } else {
        HandleUp(pid, bp);
      }
    }

    static method Pull(d: Data) returns (c: int, rest: Data)
      ensures (c, rest) == PullChar(d)
    {
      if d == [] {
        c, rest := -1, [];
      } else {
        c, rest := d[0], d[1..];
      }
    }

    // lapb_input

    method LapbInput(f: Frame, e: Env)
      modifies this
      ensures Value() == Input(old(Value()), f, e)
    {
      match state {
        case Disconnected => InputDisconnected(f, e);
        case Listen =>
        case Setup => InputSetup(f);
        case DiscPending => InputDiscPending(f);
        case Connected => InputUp(f, e);
        case Recovery => InputUp(f, e);
      }
      var _ := LapbOutput(e);
      FlushResponse();
    }

    /** The end of `ax_recv`. */
    method AxInput(f: Frame, e: Env)
      modifies this
      ensures Value() == LapbSpec.AxInput(old(Value()), f, e)
    {
      if f.cmdrsp == Unknown {
        cfg := cfg.(proto := V1);
      }
      LapbInput(f, e);
    }

    method FlushResponse()
      modifies this
      ensures Value() == Flush(old(Value()))
    {
      match response {
        case NoResponse =>
        case OweRR => SendCtlS(LapbFrame.Response, RR, false);
        case OweRNR => SendCtlS(LapbFrame.Response, RNR, false);
        case OweUA => SendCtlU(LapbFrame.Response, UA, false);
      }
      response := NoResponse;
    }

    method InputDisconnected(f: Frame, e: Env)
      modifies this
      ensures Value() == InDisconnected(old(Value()), f, e)
    {
      match f.ctl {
        case U(SABM, pf) =>
          SendCtlU(LapbFrame.Response, UA, pf);
          ClearExceptions();
          ZeroCounters();
          LapbState(Connected);
          rtt := rtt.(srt := e.irtt, mdev := 0);
          t1 := SetTimer(t1, 2 * rtt.srt);
          t3 := Start(t3);
        case U(DM, _) =>
        case _ =>
          if Poll(f) {
            SendCtlU(LapbFrame.Response, DM, f.ctl.pf);
          }
      }
    }

    method InputSetup(f: Frame)
      modifies this
      ensures Value() == InSetup(old(Value()), f)
    {
      match f.ctl {
        case U(SABM, pf) => SendCtlU(LapbFrame.Response, UA, pf);
        case U(DISC, pf) => SendCtlU(LapbFrame.Response, DM, pf);
        case U(UA, _) =>
          t1 := Stop(t1);
          t3 := Start(t3);
          ZeroCounters();
          LapbState(Connected);
        case U(DM, _) =>
          txq := [];
          t1 := Stop(t1);
          reason := LbDm;
          LapbState(Disconnected);
        case _ =>
      }
    }

    method InputDiscPending(f: Frame)
      modifies this
      ensures Value() == InDiscPending(old(Value()), f)
    {
      match f.ctl {
        case U(SABM, pf) => SendCtlU(LapbFrame.Response, DM, pf);
        case U(DISC, pf) => SendCtlU(LapbFrame.Response, UA, pf);
        case U(UA, _) => t1 := Stop(t1); LapbState(Disconnected);
        case U(DM, _) => t1 := Stop(t1); LapbState(Disconnected);
        case _ =>
          if Poll(f) {
            SendCtlU(LapbFrame.Response, DM, f.ctl.pf);
          }
      }
    }

    /** The arms of the switch for CONNECTED and RECOVERY. */
    method InputUp(f: Frame, e: Env)
      requires state == Connected || state == Recovery
      modifies this
      ensures Value() == InUp(old(Value()), f, e)
    {
      match f.ctl {
        case U(k, pf) => InputUpU(k, pf);
        case I(ns, nr, pf) => InputUpI(f, e);
        case S(k, nr, pf) =>
          if k == SOther {
            return;
          }
          flags := flags.(remotebusy := k == RNR && nr == 0 && !pf);
          if state == Recovery || k == REJ {
            InputUpS(f, e);
          } else {
            if Poll(f) {
              EnquiryResponse();
            }
            var _ := AckOurs(nr, e);
          }
      }
    }

    method InputUpU(k: UKind, pf: bool)
      requires state == Connected || state == Recovery
      modifies this
      ensures Value() == InUpU(old(Value()), k, pf)
    {
      match k {
        case SABM => ResetByPeer(pf);
        case DISC => ClearedByPeer(pf);
        case DM =>
          reason := LbDm;
          LapbState(Disconnected);
        case UA =>
          EstablishLink();
          LapbState(Setup);
        case FRMR =>
          EstablishLink();
          LapbState(Setup);
        case UOther(_) =>
      }
    }

    method ResetByPeer(pf: bool)
      modifies this
      ensures Value() == InUpU(old(Value()), SABM, pf)
    {
      SendCtlU(LapbFrame.Response, UA, pf);
      ClearExceptions();
      if state == Connected {
        txq := [];
      }
      t1 := Stop(t1);
      t3 := Start(t3);
      ZeroCounters();
      LapbState(Connected);
    }

    method ClearedByPeer(pf: bool)
      modifies this
      ensures Value() == InUpU(old(Value()), DISC, pf)
    {
      txq := [];
      SendCtlU(LapbFrame.Response, UA, pf);
      StopTimers();
      if state == Recovery {
        response := OweUA;
      }
      reason := LbNormal;
      LapbState(Disconnected);
    }

    /** REJ in CONNECTED; RR, RNR and REJ in RECOVERY. */
    method InputUpS(f: Frame, e: Env)
      requires f.ctl.S? && (state == Recovery || (state == Connected && f.ctl.skind == REJ && !flags.remotebusy))
      modifies this
      ensures Value() == if old(state) == Connected then InRejConnected(old(Value()), f, e)
                         else InSRecovery(old(Value()), f, e)
    {
      if state == Connected {
        if Poll(f) {
          EnquiryResponse();
        }
        var _ := AckOurs(f.ctl.nr, e);
        t1 := Stop(t1);
        t3 := Start(t3);
        InvokeRetransmission();
      } else if cfg.proto == V1 || Final(f) {
        t1 := Stop(t1);
        var _ := AckOurs(f.ctl.nr, e);
        if unack != 0 {
          InvokeRetransmission();
        } else {
          t3 := Start(t3);
          LapbState(Connected);
        }
      } else {
        if Poll(f) {
          EnquiryResponse();
        }
        var _ := AckOurs(f.ctl.nr, e);
        if f.ctl.skind == REJ && unack != 0 {
          InvokeRetransmission();
        }
        if !t1.running {
          t1 := Start(t1);
        }
      }
    }

    method InputUpI(f: Frame, e: Env)
      requires f.ctl.I? && (state == Connected || state == Recovery)
      modifies this
      ensures Value() == if old(state) == Connected then InIConnected(old(Value()), f, e)
                         else InIRecovery(old(Value()), f, e)
    {
      var was := state;
      var _ := AckOurs(f.ctl.nr, e);
      if was == Recovery && !t1.running {
        t1 := Start(t1);
      }
      if |asm.rxq| >= cfg.window {
        if was == Recovery || Poll(f) {
          SendCtlS(LapbFrame.Response, RNR, f.ctl.pf);
        }
        return;
      }
      ReceiveI(f);
    }

    method RejectI(f: Frame)
      modifies this
      ensures Value() == OutOfSequence(old(Value()), f)
    {
      if cfg.proto == V1 || !flags.rejsent {
        flags := flags.(rejsent := true);
        SendCtlS(LapbFrame.Response, REJ, f.ctl.pf);
      } else if Poll(f) {
        EnquiryResponse();
      }
      response := NoResponse;
    }

    method Advance(d: Data)
      modifies this
      ensures Value() == Accept(old(Value()), d)
    {
      flags := flags.(rejsent := false);
      vr := (vr + 1) % 8;
      hist := hist.(accepted := hist.accepted + [d]);
    }

    /** Accept an I frame in sequence, reject any other. */
    method ReceiveI(f: Frame)
      requires f.ctl.I?
      modifies this
      ensures Value() == Receive(old(Value()), f)
    {
      if f.ctl.ns != vr {
        RejectI(f);
        return;
      }
      Advance(f.info);
      var full := |asm.rxq| >= cfg.window;
      if Poll(f) {
        SendCtlS(LapbFrame.Response, if full then RNR else RR, true);
      } else {
        response := if full then OweRNR else OweRR;
      }
      ProcessData(f.info);
    }

    // lapbtime.c

    method TransmitEnquiry()
      modifies this
      ensures Value() == TxEnq(old(Value()))
    {
      if txq != [] && (|txq[0]| < cfg.pthresh || cfg.proto == V1) {
        sent := sent + [Wire(Frame(Command, I((vs - unack) % 8, vr, true), txq[0]), hist.freed, |hist.accepted|)];
      } else {
        SendCtlS(Command, if |asm.rxq| >= cfg.window then RNR else RR, true);
      }
      response := NoResponse;
      t3 := Stop(t3);
      t1 := Start(t1);
    }

    /** T1 has expired. */
    method Recover(e: Env)
      modifies this
      ensures Value() == LapbSpec.Recover(old(Value()), e)
    {
      BackOff(e);
      var over := cfg.n2 != 0 && retries > cfg.n2;
      match state {
        case Setup => Retry(SABM, over);
        case DiscPending => Retry(DISC, over);
        case Connected => ProbePeer(over);
        case Recovery => ProbePeer(over);
        case _ =>
      }
    }

    method BackOff(e: Env)
      modifies this
      ensures Value() == LapbSpec.BackOff(old(Value()), e)
    {
      flags := flags.(retrans := true);
      retries := retries + 1;
      if Pow2(retries) < e.blimit {
        t1 := SetTimer(t1, t1.duration * MSPTICK * 2);
      }
    }

    method Retry(k: UKind, over: bool)
      requires state == Setup <==> k == SABM
      modifies this
      ensures Value() == RetryU(old(Value()), k, over)
    {
      if over {
        if state == Setup {
          txq := [];
        }
        reason := LbTimeout;
        LapbState(Disconnected);
      } else {
        SendCtlU(Command, k, true);
        t1 := Start(t1);
      }
    }

    method ProbePeer(over: bool)
      requires over == GivesUp(Value())
      modifies this
      ensures Value() == Probe(old(Value()))
    {
      if over {
        SendCtlU(LapbFrame.Response, DM, true);
        txq := [];
        reason := LbTimeout;
        LapbState(Disconnected);
      } else {
        TransmitEnquiry();
        LapbState(Recovery);
      }
    }

    /** T3 has expired. */
    method PollThem()
      modifies this
      ensures Value() == LapbSpec.PollThem(old(Value()))
    {
      if cfg.proto == V1 {
        return;
      }
      if state == Connected {
        retries := 0;
        TransmitEnquiry();
        LapbState(Recovery);
      }
    }

    // ax25user.c

    /** Refused, unless the link is down; a passive open only listens. */
    method OpenAx25(mode: Mode, window: nat) returns (ok: bool)
      modifies this
      ensures Value() == Open(old(Value()), mode, window) && ok == (old(state) == Disconnected)
    {
      ok := state == Disconnected;
      if ok {
        cfg := cfg.(window := window);
        if mode == Active {
          EstablishLink();
          LapbState(Setup);
        } else {
          state := Listen;
        }
      }
    }

    method SendQueue(fields: seq<Data>, e: Env) returns (count: int)
      modifies this
      ensures Value() == SendRaw(old(Value()), fields, e)
    {
      if fields == [] {
        return -1;
      }
      txq := txq + fields;
      hist := hist.(queued := hist.queued + fields);
      count := LapbOutput(e);
    }

    method SendAx25(d: Data, pid: byte, e: Env) returns (count: int)
      requires cfg.paclen > 0
      modifies this
      ensures Value() == SendStream(old(Value()), pid, d, e)
    {
      var offset, len := 0, |d|;
      while len != 0
        invariant 0 <= offset && 0 <= len && offset + len == |d| && cfg == old(cfg)
        invariant Enqueue(Value(), Packetize(pid, d[offset..], cfg.paclen)) ==
                  Enqueue(old(Value()), Packetize(pid, d, cfg.paclen))
      {
        var size := Min(len, cfg.paclen);
        var field := [pid] + d[offset..offset + size];
        ghost var rest := d[offset..];
        assert rest[..size] == d[offset..offset + size] && rest[size..] == d[offset + size..];
        ghost var before := Value();
        txq := txq + [field];
        hist := hist.(queued := hist.queued + [field]);
        EnqueueTwice(before, field, Packetize(pid, d[offset + size..], cfg.paclen));
        len := len - size;
        offset := offset + size;
      }
      assert d[offset..] == [];
      assert Enqueue(Value(), []) == Value();
      count := LapbOutput(e);
    }

    method RecvAx25(cnt: nat, head: nat) returns (d: Data)
      modifies this
      ensures Value() == Recv(old(Value()), cnt, head)
      ensures d == old(asm.rxq)[..Taken(old(Value()), cnt)] && d + asm.rxq == old(asm.rxq)
    {
      if asm.rxq == [] {
        return [];
      }
      var got;
      if cnt == 0 {
        d := asm.rxq;
        asm := asm.(rxq := []);
        got := head;
      } else {
        var n := Min(cnt, |asm.rxq|);
        d := asm.rxq[..n];
        asm := asm.(rxq := asm.rxq[n..]);
        got := n;
      }
      if |asm.rxq| < cfg.window && |asm.rxq| + got >= cfg.window {
        SendCtlS(LapbFrame.Response, RR, false);
      }
    }

    method AskDisconnect()
      modifies this
      ensures Value() == DiscTimers(old(Value()))
    {
      SendCtlU(Command, DISC, true);
      t3 := Stop(t3);
      t1 := Start(t1);
      LapbState(DiscPending);
    }

    /** A listening control block is to be deleted. */
    method DiscAx25() returns (delete: bool)
      modifies this
      ensures Value() == Disc(old(Value())) && delete == (old(state) == Listen)
    {
      delete := state == Listen;
      if state == DiscPending {
        LapbState(Disconnected);
      } else if state == Connected || state == Recovery {
        txq := [];
        retries := 0;
        AskDisconnect();
      }
    }
  }

  lemma EnqueueTwice(c: Cb, field: Data, rest: seq<Data>)
    ensures Enqueue(c, [field] + rest) == Enqueue(Enqueue(c, [field]), rest)
  {
    assert c.txq + ([field] + rest) == c.txq + [field] + rest;
    assert c.hist.queued + ([field] + rest) == c.hist.queued + [field] + rest;
  }
}
