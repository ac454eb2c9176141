module LapbLocal {
  // What one step of one endpoint keeps, whatever the step: the modulo-8 variables stand for
  // the unbounded counts of the history, the transmit queue is the unacknowledged tail of what
  // was queued, and every frame sent carries numbers and contents that agree with both.

  import opened Bytes
  import opened LapbFrame
  import opened LapbSpec

  /** V(S), the transmit queue and the count of unacknowledged frames agree with the history. */
  ghost predicate Window(c: Cb) {
    && c.vs == (c.hist.freed + c.unack) % 8
    && c.unack <= c.cfg.maxframe
    && c.unack <= |c.txq|
    && c.hist.freed <= |c.hist.queued|
    && c.txq == c.hist.queued[c.hist.freed..]
  }

  /** Holds of an endpoint from the moment its link is up, through and after its release. */
  ghost predicate Sound(c: Cb) {
    && 1 <= c.cfg.maxframe <= 7
    && c.state != Listen && c.state != Setup
    && c.vr == |c.hist.accepted| % 8
    && c.hist.freed <= |c.hist.queued|
    && (forall i :: 0 <= i < |c.hist.queued| ==> c.hist.queued[i] != [])
    && (c.Up() ==> Window(c))
  }

  predicate Numbered(w: Wire) { !w.frame.ctl.U? }

  /** A frame sent by `c`: its N(S) and contents, and its N(R), which acknowledges at least `lo`. */
  ghost predicate Truthful(w: Wire, c: Cb, lo: nat) {
    w.frame.cmdrsp != Unknown &&
    match w.frame.ctl
    case I(ns, nr, _) =>
      && c.hist.freed <= w.ns < c.hist.freed + c.cfg.maxframe
      && w.ns < |c.hist.queued| && w.frame.info == c.hist.queued[w.ns] && ns == w.ns % 8
      && lo <= w.nr <= |c.hist.accepted| && nr == w.nr % 8
    case S(_, nr, _) => lo <= w.nr <= |c.hist.accepted| && nr == w.nr % 8
    case U(k, _) => k != SABM && k != FRMR && (k == DISC ==> !c.Up())
  }

  ghost predicate Sorted(ws: seq<Wire>) {
    forall i, j :: 0 <= i < j < |ws| && Numbered(ws[i]) && Numbered(ws[j]) ==> ws[i].nr <= ws[j].nr
  }

  ghost predicate SentOk(c: Cb, lo: nat) {
    && lo <= |c.hist.accepted|
    && (forall i :: 0 <= i < |c.sent| ==> Truthful(c.sent[i], c, lo))
    && Sorted(c.sent)
  }

  /** No I frame has gone out yet in this step, so the window may still move. */
  ghost predicate NoI(c: Cb) {
    forall i :: 0 <= i < |c.sent| ==> !c.sent[i].frame.ctl.I?
  }

  ghost predicate NoUA(c: Cb) {
    forall i :: 0 <= i < |c.sent| ==> !(c.sent[i].frame.ctl.U? && c.sent[i].frame.ctl.ukind == UA)
  }

  // Acknowledgements

  /** Counts less than eight apart are told apart by their residues. */
  lemma Mod8(a: nat, b: nat)
    requires a <= b <= a + 7
    ensures a % 8 == b % 8 <==> a == b
    ensures (a % 8 + 1) % 8 == (a + 1) % 8
  {
  }

  lemma SubMod8(a: nat, u: nat)
    ensures ((a + u) % 8 - u) % 8 == a % 8
  {
    var q := (a + u) / 8;
    assert (a + u) % 8 - u == a - 8 * q;
    assert (a - 8 * q) % 8 == a % 8;
  }

  /** Everything `ackours` may touch is in the window, the timers and the round-trip timing. */
  ghost predicate OnlyAcked(c: Cb, r: Cb) {
    && r == c.(txq := r.txq, unack := r.unack, flags := r.flags, t1 := r.t1, t3 := r.t3,
               retries := r.retries, rtt := r.rtt, hist := c.hist.(freed := r.hist.freed))
    && r.flags.remotebusy == c.flags.remotebusy && r.flags.rejsent == c.flags.rejsent
  }

  /**
   The loop of `ackours`, given the number `n` of a true count `upto`, frees exactly the
   frames below `upto` that are outstanding, although it only ever compares modulo 8.
   */
  lemma {:induction false} AckLoopFrees(c: Cb, oldest: nat, n: nat, upto: nat, e: Env)
    requires c.unack <= 7 && c.unack <= |c.txq| && c.hist.freed <= upto <= c.hist.freed + 7
    requires oldest == c.hist.freed % 8 && n == upto % 8
    ensures var (r, ok) := AckLoop(c, oldest, n, e);
            && ok
            && r.hist.freed == Min(upto, c.hist.freed + c.unack)
            && r.unack == c.hist.freed + c.unack - r.hist.freed
            && r.txq == c.txq[r.hist.freed - c.hist.freed..]
            && OnlyAcked(c, r) && r.t1.running == c.t1.running && r.t3 == c.t3
    decreases c.unack
  {
    Mod8(c.hist.freed, upto);
    if c.unack != 0 && oldest != n {
      var c1 := FreeOne(c, oldest, e);
      FreeOneSlides(c, oldest, e);
      AckLoopFrees(c1, (oldest + 1) % 8, n, upto, e);
      var r := AckLoop(c1, (oldest + 1) % 8, n, e).0;
      assert c1.txq[r.hist.freed - c1.hist.freed..] == c.txq[r.hist.freed - c.hist.freed..];
    }
  }

  lemma FreeOneSlides(c: Cb, oldest: nat, e: Env)
    requires 0 < c.unack <= |c.txq|
    ensures var c1 := FreeOne(c, oldest, e);
            && c1.hist.freed == c.hist.freed + 1 && c1.unack == c.unack - 1 && c1.txq == c.txq[1..]
            && OnlyAcked(c, c1) && c1.t1.running == c.t1.running && c1.t3 == c.t3
  {
  }

  /** `ackours` in a sound window: the window slides to the acknowledged frame and no further. */
  lemma AckOursSlides(c: Cb, n: nat, upto: nat, e: Env)
    requires Window(c) && c.cfg.maxframe <= 7
    requires c.hist.freed <= upto <= c.hist.freed + 7 && n == upto % 8
    ensures var r := AckOurs(c, n, e);
            && Window(r) && OnlyAcked(c, r)
            && r.hist.freed == Min(upto, c.hist.freed + c.unack)
            && r.hist.freed + r.unack == c.hist.freed + c.unack
  {
    OldestIs(c);
    AckOursFrees(c, (c.vs - c.unack) % 8, n, upto, e);
    WindowSlides(c, AckOurs(c, n, e));
  }

  lemma AckOursFrees(c: Cb, oldest: nat, n: nat, upto: nat, e: Env)
    requires c.unack <= 7 && c.unack <= |c.txq| && c.hist.freed <= upto <= c.hist.freed + 7
    requires oldest == (c.vs - c.unack) % 8 == c.hist.freed % 8 && n == upto % 8
    ensures var r := AckOurs(c, n, e);
            && OnlyAcked(c, r) && r.hist.freed == Min(upto, c.hist.freed + c.unack)
            && r.hist.freed + r.unack == c.hist.freed + c.unack
            && r.txq == c.txq[r.hist.freed - c.hist.freed..]
  {
    AckLoopFrees(c, oldest, n, upto, e);
  }

  lemma OldestIs(c: Cb)
    requires Window(c)
    ensures (c.vs - c.unack) % 8 == c.hist.freed % 8
  {
    SubMod8(c.hist.freed, c.unack);
  }

  lemma WindowSlides(c: Cb, r: Cb)
    requires Window(c) && r.vs == c.vs && r.cfg == c.cfg && r.hist == c.hist.(freed := r.hist.freed)
    requires c.hist.freed <= r.hist.freed && r.hist.freed + r.unack == c.hist.freed + c.unack
    requires r.txq == c.txq[r.hist.freed - c.hist.freed..]
    ensures Window(r)
  {
  }

  // Sending

  lemma PutKeeps(c: Cb, w: Wire, lo: nat)
    requires SentOk(c, lo) && Truthful(w, c, lo) && (Numbered(w) ==> w.nr == |c.hist.accepted|)
    ensures SentOk(Put(c, w), lo)
  {
    var r := Put(c, w);
    forall i | 0 <= i < |r.sent| ensures Truthful(r.sent[i], r, lo) {
      assert Truthful(r.sent[i], c, lo);
    }
    forall i, j | 0 <= i < j < |r.sent| && Numbered(r.sent[i]) && Numbered(r.sent[j])
      ensures r.sent[i].nr <= r.sent[j].nr
    {
      assert Truthful(r.sent[i], c, lo);
    }
  }

  /** A change that leaves history, configuration and what was sent alone. */
  lemma SameSent(c: Cb, r: Cb, lo: nat)
    requires SentOk(c, lo) && r.sent == c.sent && r.hist == c.hist && r.cfg == c.cfg
    requires r.Up() ==> c.Up()
    ensures SentOk(r, lo)
  {
    forall i | 0 <= i < |r.sent| ensures Truthful(r.sent[i], r, lo) {
      assert Truthful(c.sent[i], c, lo);
    }
  }

  /** `lapb_output` fills the window exactly, and sends the frames that belong there. */
  lemma {:induction false} SendLoopFills(c: Cb, lo: nat, e: Env)
    requires Sound(c) && c.Up() && SentOk(c, lo)
    ensures var r := SendLoop(c, e);
            && Sound(r) && SentOk(r, lo) && (NoUA(c) ==> NoUA(r))
            && r.unack == Min(c.cfg.maxframe, |c.txq|)
            && r.hist == c.hist && r.asm == c.asm && r.state == c.state && r.cfg == c.cfg && r.txq == c.txq
            && r.flags.remotebusy == c.flags.remotebusy
            && (r.response == c.response || r.response == NoResponse)
    decreases c.cfg.maxframe - c.unack
  {
    if c.unack < |c.txq| && c.unack < c.cfg.maxframe {
      assert c.txq[c.unack] == c.hist.queued[c.hist.freed + c.unack];
      SendNextKeeps(c, lo, e);
      SendLoopFills(SendNext(c, e), lo, e);
    }
  }

  lemma SendNextKeeps(c: Cb, lo: nat, e: Env)
    requires Sound(c) && c.Up() && SentOk(c, lo) && c.unack < |c.txq| && c.unack < c.cfg.maxframe
    ensures Sound(SendNext(c, e)) && SentOk(SendNext(c, e), lo) && (NoUA(c) ==> NoUA(SendNext(c, e)))
  {
    var w := Wire(Frame(Command, I(c.vs, c.vr, false), c.txq[c.unack]), c.hist.freed + c.unack, |c.hist.accepted|);
    Mod8(c.hist.freed + c.unack, c.hist.freed + c.unack);
    PutKeeps(c, w, lo);
    SameSent(Put(c, w), SendNext(c, e), lo);
  }

  // Input

  /** The frames a peer of the same incarnation can have sent to an endpoint in state `c`. */
  ghost predicate Expected(c: Cb, f: Frame, upto: nat) {
    match f.ctl
    case I(_, nr, _) => c.Up() ==> c.hist.freed <= upto <= c.hist.freed + 7 && nr == upto % 8
    case S(_, nr, _) => c.Up() ==> c.hist.freed <= upto <= c.hist.freed + 7 && nr == upto % 8
    case U(k, _) => k != SABM && k != FRMR && (k == UA ==> !c.Up())
  }

  predicate Acks(f: Frame) { f.ctl.I? || (f.ctl.S? && f.ctl.skind != SOther) }

  predicate IsDisc(f: Frame) { f.ctl.U? && f.ctl.ukind == DISC }

  /** The receiving side: nothing accepted, or exactly the I frame whose N(S) is V(R). */
  ghost predicate Accepts(c: Cb, r: Cb, f: Frame) {
    || (r.hist.accepted == c.hist.accepted && r.asm == c.asm)
    || (&& c.Up() && f.ctl.I? && f.ctl.ns == c.vr
        && r.hist.accepted == c.hist.accepted + [f.info] && r.asm == ProcData(c.asm, f.info))
  }

  ghost predicate Stepped(c: Cb, r: Cb, f: Frame, upto: nat) {
    && Sound(r) && SentOk(r, |c.hist.accepted|)
    && r.cfg == c.cfg && r.hist.queued == c.hist.queued && (r.Up() ==> c.Up())
    && r.hist.freed == (if c.Up() && Acks(f) then Min(upto, c.hist.freed + c.unack) else c.hist.freed)
    && Accepts(c, r, f)
    && (!IsDisc(f) ==> NoUA(r) && r.response != OweUA)
    && (!r.Up() || r.response != OweUA)
  }

  ghost predicate Start0(c: Cb) {
    Sound(c) && c.sent == [] && c.response == NoResponse
  }

  lemma DownKeeps(c: Cb, f: Frame, upto: nat, e: Env)
    requires Start0(c) && Expected(c, f, upto) && !c.Up()
    ensures Stepped(c, Dispatch(c, f, e), f, upto)
  {
    if c.state == DiscPending {
      DiscPendingKeeps(c, f, upto);
    }
  }

  lemma DiscPendingKeeps(c: Cb, f: Frame, upto: nat)
    requires Start0(c) && Expected(c, f, upto) && c.state == DiscPending
    ensures Stepped(c, InDiscPending(c, f), f, upto)
  {
  }

  lemma UpUKeeps(c: Cb, f: Frame, upto: nat, e: Env)
    requires Start0(c) && Expected(c, f, upto) && c.Up() && f.ctl.U?
    ensures Stepped(c, Dispatch(c, f, e), f, upto) && NoI(Dispatch(c, f, e))
  {
    if f.ctl.ukind == DISC {
      ReleaseKeeps(c, f, upto, e);
    } else {
      OtherUKeeps(c, f, upto, e);
    }
  }

  lemma ReleaseKeeps(c: Cb, f: Frame, upto: nat, e: Env)
    requires Start0(c) && Expected(c, f, upto) && c.Up() && f.ctl.U? && f.ctl.ukind == DISC
    ensures Stepped(c, Dispatch(c, f, e), f, upto) && NoI(Dispatch(c, f, e))
  {
  }

  lemma OtherUKeeps(c: Cb, f: Frame, upto: nat, e: Env)
    requires Start0(c) && Expected(c, f, upto) && c.Up() && f.ctl.U? && f.ctl.ukind != DISC
    ensures Stepped(c, Dispatch(c, f, e), f, upto) && NoI(Dispatch(c, f, e))
  {
  }

  /** The middle of a step, after the window has been moved by the frame's N(R). */
  ghost predicate Mid(c: Cb, r: Cb, f: Frame, upto: nat) {
    Stepped(c, r, f, upto) && NoI(r) && r.Up() && r.response == NoResponse
  }

  lemma AnswerKeeps(c: Cb, f: Frame)
    requires Start0(c) && c.Up()
    ensures var r := Answer(c, f);
            && SentOk(r, |c.hist.accepted|) && NoI(r) && NoUA(r)
            && r == c.(sent := r.sent, t3 := r.t3)
  {
  }

  lemma AckKeeps(c: Cb, d: Cb, f: Frame, upto: nat, e: Env)
    requires Start0(c) && c.Up() && Expected(c, f, upto) && Acks(f)
    requires d == c.(sent := d.sent, t1 := d.t1, t3 := d.t3, flags := d.flags)
    requires SentOk(d, |c.hist.accepted|) && NoI(d) && NoUA(d)
    ensures Mid(c, AckOurs(d, f.ctl.nr, e), f, upto) && AckOurs(d, f.ctl.nr, e).asm == c.asm
    ensures AckOurs(d, f.ctl.nr, e).vr == c.vr && AckOurs(d, f.ctl.nr, e).sent == d.sent
    ensures AckOurs(d, f.ctl.nr, e).hist.accepted == c.hist.accepted
  {
    AckOursSlides(d, f.ctl.nr, upto, e);
    var r := AckOurs(d, f.ctl.nr, e);
    forall i | 0 <= i < |r.sent| ensures Truthful(r.sent[i], r, |c.hist.accepted|) {
      assert Truthful(d.sent[i], d, |c.hist.accepted|);
    }
  }

  lemma InvRexKeeps(c: Cb, d: Cb, f: Frame, upto: nat)
    requires Mid(c, d, f, upto)
    ensures Mid(c, InvRex(d), f, upto)
  {
    SubMod8(d.hist.freed, d.unack);
    SameSent(d, InvRex(d), |c.hist.accepted|);
  }

  /** Starting and stopping timers, and moving between the two states of a link that is up. */
  lemma TouchKeeps(c: Cb, d: Cb, r: Cb, f: Frame, upto: nat)
    requires Mid(c, d, f, upto) && r == d.(t1 := r.t1, t3 := r.t3, state := r.state) && r.Up()
    ensures Mid(c, r, f, upto)
  {
    SameSent(d, r, |c.hist.accepted|);
  }

  lemma UpSKeeps(c: Cb, f: Frame, upto: nat, e: Env)
    requires Start0(c) && Expected(c, f, upto) && c.Up() && f.ctl.S?
    ensures Mid(c, Dispatch(c, f, e), f, upto)
  {
    if f.ctl.skind != SOther {
      var c0 := SetBusy(c, f.ctl.skind == RNR && f.ctl.nr == 0 && !f.ctl.pf);
      if c.state == Recovery {
        RecoverySKeeps(c, c0, f, upto, e);
      } else {
        ConnectedSKeeps(c, c0, f, upto, e);
      }
    }
  }

  lemma ConnectedSKeeps(c: Cb, c0: Cb, f: Frame, upto: nat, e: Env)
    requires Start0(c) && Expected(c, f, upto) && c.Up() && f.ctl.S? && f.ctl.skind != SOther
    requires c0 == c.(flags := c0.flags)
    ensures var c1 := AckOurs(Answer(c0, f), f.ctl.nr, e);
            Mid(c, c1, f, upto) && Mid(c, InvRex(c1.(t1 := Stop(c1.t1), t3 := Start(c1.t3))), f, upto)
  {
    AnswerKeeps(c0, f);
    AckKeeps(c, Answer(c0, f), f, upto, e);
    var c1 := AckOurs(Answer(c0, f), f.ctl.nr, e);
    var c2 := c1.(t1 := Stop(c1.t1), t3 := Start(c1.t3));
    TouchKeeps(c, c1, c2, f, upto);
    InvRexKeeps(c, c2, f, upto);
  }

  lemma RecoverySKeeps(c: Cb, c0: Cb, f: Frame, upto: nat, e: Env)
    requires Start0(c) && Expected(c, f, upto) && c.state == Recovery && f.ctl.S? && f.ctl.skind != SOther
    requires c0 == c.(flags := c0.flags)
    ensures Mid(c, InSRecovery(c0, f, e), f, upto)
  {
    if c.cfg.proto == V1 || Final(f) {
      var d := c0.(t1 := Stop(c0.t1));
      AckKeeps(c, d, f, upto, e);
      var c1 := AckOurs(d, f.ctl.nr, e);
      InvRexKeeps(c, c1, f, upto);
      TouchKeeps(c, c1, SetState(c1.(t3 := Start(c1.t3)), Connected), f, upto);
    } else {
      AnswerKeeps(c0, f);
      AckKeeps(c, Answer(c0, f), f, upto, e);
      var c1 := AckOurs(Answer(c0, f), f.ctl.nr, e);
      InvRexKeeps(c, c1, f, upto);
      TouchKeeps(c, c1, KeepT1(c1), f, upto);
      TouchKeeps(c, InvRex(c1), KeepT1(InvRex(c1)), f, upto);
    }
  }

  /** A middle state reached by the acknowledgement alone: nothing sent or accepted yet. */
  ghost predicate Acked(c: Cb, d: Cb, f: Frame, upto: nat) {
    && Start0(c) && c.Up() && Mid(c, d, f, upto)
    && d.sent == [] && d.vr == c.vr && d.asm == c.asm && d.hist.accepted == c.hist.accepted
  }

  lemma SendSKeeps(c: Cb, d: Cb, k: SKind, pf: bool, f: Frame, upto: nat)
    requires Mid(c, d, f, upto)
    ensures Mid(c, SendS(d, LapbFrame.Response, k, pf), f, upto)
  {
    PutKeeps(d, Wire(Frame(LapbFrame.Response, S(k, d.vr, pf), []), 0, |d.hist.accepted|), |c.hist.accepted|);
  }

  lemma RejectKeeps(c: Cb, d: Cb, f: Frame, upto: nat)
    requires Acked(c, d, f, upto)
    ensures Mid(c, OutOfSequence(d, f), f, upto)
  {
    var d1 := SetRejSent(d, true);
    SameSent(d, d1, |c.hist.accepted|);
    assert Mid(c, d1, f, upto);
    SendSKeeps(c, d1, REJ, f.ctl.pf, f, upto);
    SendSKeeps(c, d, Ready(d), true, f, upto);
    var d2 := EnqResp(d);
    TouchKeeps(c, SendS(d, LapbFrame.Response, Ready(d), true), d2, f, upto);
  }

  lemma AcceptKeeps(c: Cb, d: Cb, f: Frame, upto: nat)
    requires Acked(c, d, f, upto) && f.ctl.I? && f.ctl.ns == d.vr
    ensures Stepped(c, Receive(d, f), f, upto) && NoI(Receive(d, f))
  {
    var lo := |c.hist.accepted|;
    Mod8(lo, lo);
    var d1 := Accept(d, f.info);
    var a := ProcData(d.asm, f.info);
    var d2 := d1.(asm := a);
    assert Mid(c, d2, f, upto);
    SendSKeeps(c, d2, Ready(d1), true, f, upto);
    SameSent(d2, d2.(response := if d1.Full() then OweRNR else OweRR), lo);
  }

  lemma UpIKeeps(c: Cb, f: Frame, upto: nat, e: Env)
    requires Start0(c) && Expected(c, f, upto) && c.Up() && f.ctl.I?
    ensures Stepped(c, Dispatch(c, f, e), f, upto) && NoI(Dispatch(c, f, e))
  {
    AckKeeps(c, c, f, upto, e);
    var c1 := AckOurs(c, f.ctl.nr, e);
    TouchKeeps(c, c1, KeepT1(c1), f, upto);
    var c2 := if c.state == Connected then c1 else KeepT1(c1);
    assert Acked(c, c2, f, upto);
    if c2.Full() {
      SendSKeeps(c, c2, RNR, f.ctl.pf, f, upto);
    } else if f.ctl.ns != c2.vr {
      RejectKeeps(c, c2, f, upto);
    } else {
      AcceptKeeps(c, c2, f, upto);
    }
  }

  lemma FlushKeeps(c: Cb, r: Cb, f: Frame, upto: nat)
    requires Start0(c) && Stepped(c, r, f, upto)
    ensures Stepped(c, Flush(r), f, upto) && Flush(r).response == NoResponse
  {
    var lo := |c.hist.accepted|;
    var k := if r.response == OweRNR then RNR else RR;
    PutKeeps(r, Wire(Frame(LapbFrame.Response, S(k, r.vr, false), []), 0, |r.hist.accepted|), lo);
    PutKeeps(r, Wire(Frame(LapbFrame.Response, U(UA, false), []), 0, 0), lo);
    SameSent(SendS(r, LapbFrame.Response, k, false), SendS(r, LapbFrame.Response, k, false).(response := NoResponse), lo);
    SameSent(SendU(r, LapbFrame.Response, UA, false), SendU(r, LapbFrame.Response, UA, false).(response := NoResponse), lo);
    SameSent(r, r.(response := NoResponse), lo);
  }

  lemma DispatchKeeps(c: Cb, f: Frame, upto: nat, e: Env)
    requires Start0(c) && Expected(c, f, upto)
    ensures Stepped(c, Dispatch(c, f, e), f, upto) && (IsDisc(f) ==> !Dispatch(c, f, e).Up())
  {
    if !c.Up() {
      DownKeeps(c, f, upto, e);
    } else if f.ctl.U? {
      UpUKeeps(c, f, upto, e);
    } else if f.ctl.S? {
      UpSKeeps(c, f, upto, e);
    } else {
      UpIKeeps(c, f, upto, e);
    }
  }

  /** One received frame, processed by an endpoint in any state of the incarnation. */
  lemma InputKeeps(c: Cb, f: Frame, upto: nat, e: Env)
    requires Start0(c) && Expected(c, f, upto)
    ensures Stepped(c, Input(c, f, e), f, upto) && Input(c, f, e).response == NoResponse
    ensures IsDisc(f) ==> !Input(c, f, e).Up()
  {
    var d := Dispatch(c, f, e);
    DispatchKeeps(c, f, upto, e);
    if d.Up() {
      SendLoopFills(d, |c.hist.accepted|, e);
    }
    FlushKeeps(c, Output(d, e), f, upto);
  }

  // Timers and the user

  /** A step that is not a reception: the same history but for what was queued. */
  ghost predicate Quiet(c: Cb, r: Cb, fields: seq<Data>) {
    && Sound(r) && SentOk(r, |c.hist.accepted|) && NoUA(r) && r.response == NoResponse
    && r.cfg == c.cfg && (r.Up() ==> c.Up())
    && r.hist == c.hist.(queued := c.hist.queued + fields)
    && r.asm.upcalls == c.asm.upcalls && r.asm.segremain == c.asm.segremain && r.asm.rxasm == c.asm.rxasm
  }

  lemma TxEnqKeeps(c: Cb)
    requires Start0(c) && c.Up()
    ensures Quiet(c, TxEnq(c), []) && TxEnq(c).state == c.state
  {
    var lo := |c.hist.accepted|;
    var k := Ready(c);
    SubMod8(c.hist.freed, c.unack);
    PutKeeps(c, Wire(Frame(Command, S(k, c.vr, true), []), 0, lo), lo);
    if c.txq != [] {
      assert c.txq[0] == c.hist.queued[c.hist.freed];
      PutKeeps(c, Wire(Frame(Command, I((c.vs - c.unack) % 8, c.vr, true), c.txq[0]), c.hist.freed, lo), lo);
    }
  }

  lemma ProbeKeeps(c: Cb)
    requires Start0(c) && c.Up()
    ensures Quiet(c, Probe(c), [])
  {
    assert c.hist.queued + [] == c.hist.queued;
    if !GivesUp(c) {
      TxEnqKeeps(c);
      SameSent(TxEnq(c), SetState(TxEnq(c), Recovery), |c.hist.accepted|);
    }
  }

  lemma RecoverKeeps(c: Cb, e: Env)
    requires Start0(c)
    ensures Quiet(c, Recover(c, e), [])
  {
    var c1 := BackOff(c, e);
    assert Start0(c1) && c1.hist == c.hist && c1.asm == c.asm;
    if c.Up() {
      ProbeKeeps(c1);
    } else {
      RetryKeeps(c, c1);
    }
  }

  /** The request for a release is repeated or given up. */
  lemma RetryKeeps(c: Cb, c1: Cb)
    requires Start0(c) && !c.Up() && c1 == c.(retries := c1.retries, t1 := c1.t1, flags := c1.flags)
    ensures Quiet(c, c1, []) && Quiet(c, RetryU(c1, DISC, GivesUp(c1)), [])
  {
    assert c.hist.queued + [] == c.hist.queued;
  }

  lemma PollThemKeeps(c: Cb)
    requires Start0(c)
    ensures Quiet(c, PollThem(c), [])
  {
    if c.Up() {
      var c1 := c.(retries := 0);
      TxEnqKeeps(c1);
      SameSent(TxEnq(c1), SetState(TxEnq(c1), Recovery), |c.hist.accepted|);
    }
  }

  lemma SendFieldsKeeps(c: Cb, fields: seq<Data>, e: Env)
    requires Start0(c) && forall i :: 0 <= i < |fields| ==> fields[i] != []
    ensures Quiet(c, SendFields(c, fields, e), fields)
  {
    var c1 := Enqueue(c, fields);
    assert c.Up() ==> c1.txq == c1.hist.queued[c1.hist.freed..];
    if c1.Up() {
      SendLoopFills(c1, |c.hist.accepted|, e);
    }
  }

  lemma RecvKeeps(c: Cb, cnt: nat, head: nat)
    requires Start0(c)
    ensures Quiet(c, Recv(c, cnt, head), [])
  {
    assert c.hist.queued + [] == c.hist.queued;
  }

  /**
   A read that makes room when the receive queue was full says so to the peer if and only if it
   asked for a number of octets, or the first mbuf of the queue alone fills the window.
   */
  lemma RecvReopens(c: Cb, cnt: nat, head: nat)
    requires c.Full() && c.asm.rxq != [] && c.cfg.window > 0
    ensures var r := Recv(c, cnt, head);
            var told := r.sent == c.sent + [Wire(Frame(LapbFrame.Response, S(RR, c.vr, false), []), 0, |c.hist.accepted|)];
            && (told || r.sent == c.sent)
            && ((!r.Full() ==> told) <==> (cnt != 0 || head >= c.cfg.window))
  {
    var r := Recv(c, cnt, head);
    assert |r.asm.rxq| + Taken(c, cnt) == |c.asm.rxq|;
  }

  /** Two mbufs of one octet fill a window of two; read together, they make room, and no RR is sent. */
  lemma RecvForgets(c0: Cb, x: byte, y: byte)
    ensures var c := c0.(cfg := c0.cfg.(window := 2), asm := c0.asm.(rxq := [x, y]));
            c.Full() && !Recv(c, 0, 1).Full() && Recv(c, 0, 1).sent == c.sent
  {
    var c := c0.(cfg := c0.cfg.(window := 2), asm := c0.asm.(rxq := [x, y]));
    assert c.asm.rxq[2..] == [];
  }

  lemma DiscKeeps(c: Cb)
    requires Start0(c)
    ensures Quiet(c, Disc(c), []) && !Disc(c).Up()
  {
    assert c.hist.queued + [] == c.hist.queued;
  }
}
