module LapbOpen {
  // The opening of a link: the accepting end is up, and may send, from the moment it answers the
  // SABM; the opening end only when that answer arrives. Delivery, and the calls made, from there on.

  import opened Bytes
  import opened LapbFrame
  import opened LapbSpec
  import opened LapbLocal
  import opened LapbLink
  import opened LapbSegment

  predicate IsUA(w: Wire) { w.frame.ctl.U? && w.frame.ctl.ukind == UA && w.frame.cmdrsp != Unknown }

  /** The opening end once the answer is in, before it sends what is waiting. */
  function Answered(c: Cb): Cb { SetState(ResetCounters(c.(t1 := Stop(c.t1), t3 := Start(c.t3))), Connected) }

  /** A read before the answer arrives can send no number left from an earlier link. */
  predicate NoOldNumber(c: Cb) { c.vr == 0 || c.asm.rxq == [] }

  /** A has asked, and may have queued something; B has just answered. */
  ghost predicate Asking(l: Link) {
    && l.a.state == Setup && FreshEnd(Answered(l.a)) && FreshEnd(l.b)
    && l.ab == [] && |l.ba| == 1 && IsUA(l.ba[0])
  }

  ghost predicate Asked(l: Link) { Asking(l) && NoOldNumber(l.a) }

  /** The answer is still under way, at the head of the channel; behind it is a link that is up. */
  ghost predicate Opening(l: Link) {
    && l.a.state == Setup && NoOldNumber(l.a) && l.ba != [] && IsUA(l.ba[0]) && Inv(Opened(l))
  }

  function Opened(l: Link): Link
    requires l.ba != []
  {
    Link(Answered(l.a), l.b, l.ab, l.ba[1..])
  }

  /**
   What can happen meanwhile: anything at B; at A, everything but the arrival, the loss of the
   answer, and the expiry of T1 (it repeats the SABM, and with it a new link begins).
   */
  predicate Early(s: Step) {
    match s
    case AtA(Lose(i)) => i > 0
    case AtA(ev) => !ev.Arrive? && !ev.T1Expires?
    case AtB(_) => true
  }

  predicate EarlyRun(steps: seq<Step>) {
    ProperRun(steps) && forall i :: 0 <= i < |steps| ==> Early(steps[i])
  }

  lemma AskedOpens(l: Link)
    requires Asked(l)
    ensures Opening(l)
  {
    assert Fresh(Opened(l));
  }

  /** What B sends goes in behind the answer. */
  lemma Behind(l: Link, c: Cb, ab: seq<Wire>)
    requires l.ba != []
    ensures var m := Link(l.a, c.(sent := []), ab, l.ba + c.sent);
            m.ba != [] && m.ba[0] == l.ba[0] && Opened(m) == Link(Answered(l.a), m.b, ab, l.ba[1..] + c.sent)
  {
    assert (l.ba + c.sent)[1..] == l.ba[1..] + c.sent;
  }

  /** An event at B is one of the link behind the answer. */
  lemma EarlyAtB(l: Link, ev: Event)
    requires Opening(l) && Proper(ev)
    ensures Opening(Next(l, AtB(ev)))
  {
    Behind(l, React(l.b, l.ab, ev), Drain(l.ab, ev));
    NextKeeps(Opened(l), AtB(ev));
  }

  lemma EarlyLoss(l: Link, i: nat)
    requires Opening(l) && i > 0
    ensures Opening(Next(l, AtA(Lose(i))))
  {
    assert l.ab + [] == l.ab;
    if i < |l.ba| {
      assert (l.ba[..i] + l.ba[i + 1..])[1..] == l.ba[1..][..i - 1] + l.ba[1..][i..];
      NextKeeps(Opened(l), AtA(Lose(i - 1)));
    }
  }

  /** What A's user sends waits on the queue. */
  lemma EarlySend(l: Link, fields: seq<Data>)
    requires Opening(l) && forall i :: 0 <= i < |fields| ==> fields[i] != []
    ensures Opening(Link(Enqueue(l.a, fields), l.b, l.ab, l.ba))
  {
    var c := Answered(l.a);
    var r := Enqueue(c, fields);
    assert r == Answered(Enqueue(l.a, fields)) && r.(sent := []) == r && l.ab + r.sent == l.ab;
    assert Quiet(c, r, fields) by {
      assert c.hist.queued[c.hist.freed..] + fields == r.hist.queued[r.hist.freed..];
    }
    QuietInv(Opened(l), r, fields);
  }

  /** A read before the answer: if it sends anything, then with a number that is right for the link to come. */
  lemma EarlyRead(l: Link, cnt: nat, head: nat)
    requires Opening(l)
    ensures Opening(Next(l, AtA(Read(cnt, head))))
  {
    var c, r := Answered(l.a), Recv(l.a, cnt, head);
    if l.a.asm.rxq != [] {
      RecvKeeps(c, cnt, head);
      assert Recv(c, cnt, head) == Answered(r);
      QuietInv(Opened(l), Answered(r), []);
    } else {
      assert l.ab + [] == l.ab;
    }
  }

  lemma EarlyKeeps(l: Link, s: Step)
    requires Opening(l) && Proper(s.ev) && Early(s)
    ensures Opening(Next(l, s))
  {
    assert l.ab + [] == l.ab;
    assert l.a.sent == Answered(l.a).sent == [];
    match s
    case AtA(Lose(i)) => EarlyLoss(l, i);
    case AtA(SendQueue(fields, e)) =>
      if fields != [] { EarlySend(l, fields); }
    case AtA(SendData(pid, data, e)) =>
      if l.a.cfg.paclen != 0 {
        PacketizeNonEmpty(pid, data, l.a.cfg.paclen);
        EarlySend(l, Packetize(pid, data, l.a.cfg.paclen));
      }
    case AtA(T3Expires) =>
    case AtA(Hangup) =>
    case AtA(Read(cnt, head)) => EarlyRead(l, cnt, head);
    case AtB(ev) => EarlyAtB(l, ev);
  }

  lemma {:induction false} EarlyRunKeeps(l: Link, steps: seq<Step>)
    requires Opening(l) && EarlyRun(steps)
    ensures Opening(Run(l, steps))
    decreases |steps|
  {
    if steps != [] {
      EarlyKeeps(l, steps[0]);
      EarlyRunKeeps(Next(l, steps[0]), steps[1..]);
    }
  }

  lemma AnswerIs(l: Link, e: Env) returns (r: Cb)
    requires Opening(l)
    ensures Quiet(Answered(l.a), r, [])
    ensures Next(l, AtA(Arrive(e))) == Link(r.(sent := []), l.b, l.ab + r.sent, l.ba[1..])
  {
    var c := Answered(l.a);
    assert Enqueue(c, []) == c by {
      assert c.txq + [] == c.txq && c.hist.queued + [] == c.hist.queued;
    }
    SendFieldsKeeps(c, [], e);
    r := Output(c, e);
    assert Flush(r) == r && AxInput(l.a, l.ba[0].frame, e) == r;
  }

  /** The answer arrives, and A sends what its user has queued. */
  lemma AnswerArrives(l: Link, e: Env)
    requires Opening(l)
    ensures Inv(Next(l, AtA(Arrive(e))))
  {
    var r := AnswerIs(l, e);
    QuietInv(Opened(l), r, []);
  }

  /**
   Delivery, from the answer to the SABM on: whatever B sends before A is up, and A's user queues,
   in whatever order, is accepted as a prefix of what was queued, in order and without repeats.
   */
  lemma EarlyDelivery(l: Link, early: seq<Step>, e: Env, steps: seq<Step>)
    requires Asked(l) && EarlyRun(early) && ProperRun(steps)
    ensures var r := Run(Next(Run(l, early), AtA(Arrive(e))), steps);
            && r.b.hist.accepted <= r.a.hist.queued && r.a.hist.accepted <= r.b.hist.queued
            && r.a.hist.freed <= |r.b.hist.accepted| <= r.a.hist.freed + r.a.cfg.maxframe
            && r.b.hist.freed <= |r.a.hist.accepted| <= r.b.hist.freed + r.b.cfg.maxframe
  {
    AskedOpens(l);
    EarlyRunKeeps(l, early);
    var l1 := Run(l, early);
    AnswerArrives(l1, e);
    RunKeeps(Next(l1, AtA(Arrive(e))), steps);
  }

  // The calls made

  lemma EarlyEffect(l: Link, s: Step, sa: Assembler, sb: Assembler)
    requires Opening(l) && Proper(s.ev) && Early(s) && Digested(sa, l.a) && Digested(sb, l.b)
    ensures Effect(l, Next(l, s), OfferOf(s, true, l.a.cfg.paclen), OfferOf(s, false, l.b.cfg.paclen), sa, sb)
  {
    assert l.a.hist.queued + [] == l.a.hist.queued && l.b.hist.queued + [] == l.b.hist.queued;
    match s {
      case AtA(ev) => EarlyOffer(l.a, l.ba, ev, sa);
      case AtB(_) => NextEffect(Opened(l), s, sa, sb);
    }
  }

  lemma EarlyOffer(c: Cb, ch: seq<Wire>, ev: Event, start: Assembler)
    requires c.state == Setup && !ev.Arrive? && !ev.T1Expires? && Digested(start, c)
    ensures var r := React(c, ch, ev);
            && Digested(start, r) && r.cfg == c.cfg && r.hist.queued == c.hist.queued + Offer(ev, c.cfg.paclen)
  {
    assert c.hist.queued + [] == c.hist.queued;
  }

  lemma {:induction false} EarlyRunEffect(l: Link, steps: seq<Step>, sa: Assembler, sb: Assembler)
    requires Opening(l) && EarlyRun(steps) && Digested(sa, l.a) && Digested(sb, l.b)
    ensures Effect(l, Run(l, steps), Offered(steps, true, l.a.cfg.paclen), Offered(steps, false, l.b.cfg.paclen), sa, sb)
    decreases |steps|
  {
    if steps == [] {
      assert l.a.hist.queued + [] == l.a.hist.queued && l.b.hist.queued + [] == l.b.hist.queued;
    } else {
      var m, pa, pb := Next(l, steps[0]), l.a.cfg.paclen, l.b.cfg.paclen;
      EarlyEffect(l, steps[0], sa, sb);
      EarlyKeeps(l, steps[0]);
      EarlyRunEffect(m, steps[1..], sa, sb);
      EffectTwice(l, m, Run(l, steps), OfferOf(steps[0], true, pa), OfferOf(steps[0], false, pb),
                  Offered(steps[1..], true, pa), Offered(steps[1..], false, pb), sa, sb);
    }
  }

  lemma AnswerEffect(l: Link, e: Env, sa: Assembler, sb: Assembler)
    requires Opening(l) && Digested(sa, l.a) && Digested(sb, l.b)
    ensures Effect(l, Next(l, AtA(Arrive(e))), [], [], sa, sb)
  {
    var r := AnswerIs(l, e);
    assert l.b.hist.queued + [] == l.b.hist.queued;
  }

  /** From the arrival of the answer on. */
  lemma LaterEffect(l: Link, e: Env, steps: seq<Step>, sa: Assembler, sb: Assembler)
    requires Opening(l) && ProperRun(steps) && Digested(sa, l.a) && Digested(sb, l.b)
    ensures Effect(l, Run(Next(l, AtA(Arrive(e))), steps),
                   Offered(steps, true, l.a.cfg.paclen), Offered(steps, false, l.b.cfg.paclen), sa, sb)
  {
    var m, offA, offB := Next(l, AtA(Arrive(e))), Offered(steps, true, l.a.cfg.paclen), Offered(steps, false, l.b.cfg.paclen);
    AnswerArrives(l, e);
    AnswerEffect(l, e, sa, sb);
    RunEffect(m, steps, sa, sb);
    EffectTwice(l, m, Run(m, steps), [], [], offA, offB, sa, sb);
    assert [] + offA == offA && [] + offB == offB;
  }

  /** From the answer to the SABM to the end of a run: the answer arrives after the steps of `early`. */
  ghost function Whole(l: Link, early: seq<Step>, e: Env, steps: seq<Step>): Link {
    Run(Next(Run(l, early), AtA(Arrive(e))), steps)
  }

  lemma WholeEffect(l: Link, early: seq<Step>, e: Env, steps: seq<Step>)
    requires Asked(l) && EarlyRun(early) && ProperRun(steps)
    ensures Effect(l, Whole(l, early, e, steps),
                   Offered(early, true, l.a.cfg.paclen) + Offered(steps, true, l.a.cfg.paclen),
                   Offered(early, false, l.b.cfg.paclen) + Offered(steps, false, l.b.cfg.paclen), l.a.asm, l.b.asm)
  {
    var pa, pb, sa, sb := l.a.cfg.paclen, l.b.cfg.paclen, l.a.asm, l.b.asm;
    var m := Run(l, early);
    AskedOpens(l);
    EarlyRunKeeps(l, early);
    EarlyRunEffect(l, early, sa, sb);
    LaterEffect(m, e, steps, sa, sb);
    EffectTwice(l, m, Whole(l, early, e, steps), Offered(early, true, pa), Offered(early, false, pb),
                Offered(steps, true, pa), Offered(steps, false, pb), sa, sb);
  }

  /**
   End to end, from the answer to the SABM on, in both directions: whatever was queued before the
   answer arrived, as `axui_send` does at once, and whatever B sent before, is handed up as packets
   and chunks of streams like all that follows.
   */
  lemma EarlyEndToEnd(l: Link, early: seq<Step>, e: Env, steps: seq<Step>, sendsA: seq<Send>, sendsB: seq<Send>)
    requires Asked(l) && EarlyRun(early) && ProperRun(steps) && Idle(l.a.asm) && Idle(l.b.asm)
    requires AllSendable(sendsA, l.a.cfg.paclen) && AllSendable(sendsB, l.b.cfg.paclen)
    requires l.a.txq + (Offered(early, true, l.a.cfg.paclen) + Offered(steps, true, l.a.cfg.paclen)) ==
             AllFields(sendsA, l.a.cfg.paclen)
    requires l.b.txq + (Offered(early, false, l.b.cfg.paclen) + Offered(steps, false, l.b.cfg.paclen)) ==
             AllFields(sendsB, l.b.cfg.paclen)
    ensures var r := Whole(l, early, e, steps);
            && HandedUp(r.a, r.b, l.b.asm, sendsA, l.a.cfg.paclen)
            && HandedUp(r.b, r.a, l.a.asm, sendsB, l.b.cfg.paclen)
  {
    var r := Whole(l, early, e, steps);
    WholeEffect(l, early, e, steps);
    EarlyDelivery(l, early, e, steps);
    AcceptedHandsUp(r.a, r.b, l.b.asm, sendsA, l.a.cfg.paclen);
    AcceptedHandsUp(r.b, r.a, l.a.asm, sendsB, l.b.cfg.paclen);
  }

  // How a link comes to be asked for

  /** The asking end: the SABM is sent, and what the user offers at once waits on the queue. */
  lemma AskerAsks(cfg: Config, irtt: nat, t3init: nat, window: nat, fields: seq<Data>, e: Env)
    requires 1 <= cfg.maxframe <= 7 && forall i :: 0 <= i < |fields| ==> fields[i] != []
    ensures var a := Open(Created(cfg, irtt, t3init), Active, window);
            && |a.sent| == 1 && a.sent[0].frame == Frame(Command, U(SABM, true), [])
            && var q := SendRaw(a.(sent := []), fields, e);
               q.state == Setup && NoOldNumber(q) && FreshEnd(Answered(q))
  {
    assert [] + fields == fields;
  }

  lemma AnswererAnswers(cfg: Config, irtt: nat, t3init: nat, e: Env)
    requires 1 <= cfg.maxframe <= 7
    ensures var b := AxInput(Created(cfg, irtt, t3init), Frame(Command, U(SABM, true), []), e);
            FreshEnd(b.(sent := [])) && |b.sent| == 1 && IsUA(b.sent[0])
  {
  }

  /** Two new control blocks; A's user asks for the link, offers these I-fields at once, and the SABM is answered. */
  lemma OpeningAsks(ca: Config, cb: Config, irtt: nat, t3init: nat, window: nat, fields: seq<Data>, e: Env)
    requires 1 <= ca.maxframe <= 7 && 1 <= cb.maxframe <= 7 && forall i :: 0 <= i < |fields| ==> fields[i] != []
    ensures var a := Open(Created(ca, irtt, t3init), Active, window);
            && |a.sent| == 1
            && var b := AxInput(Created(cb, irtt, t3init), a.sent[0].frame, e);
               Asked(Link(SendRaw(a.(sent := []), fields, e), b.(sent := []), [], b.sent))
  {
    AskerAsks(ca, irtt, t3init, window, fields, e);
    AnswererAnswers(cb, irtt, t3init, e);
  }

  // A read that comes too soon

  lemma SendsOne(c: Cb, x: byte, e: Env)
    requires c.state == Connected && c.txq == [] && c.unack == c.vs == 0 && 1 <= c.cfg.maxframe && !c.flags.remotebusy
    ensures var r := SendRaw(c, [[x]], e);
            && r.state == Connected && r.txq == [[x]] && r.unack == r.vs == 1 && r.hist.freed == c.hist.freed
  {
    var q := Enqueue(c, [[x]]);
    assert q.txq == [[x]] && SendLoop(q, e) == SendLoop(SendNext(q, e), e) == SendNext(q, e);
  }

  lemma AckOne(c: Cb, nr: nat, e: Env)
    requires c.state == Connected && |c.txq| == 1 && c.unack == c.vs == 1 && 0 < nr < 8
    ensures var r := AckOurs(c, nr, e); r.hist.freed == c.hist.freed + 1 && r.txq == []
  {
    var one := FreeOne(c, 0, e);
    assert AckLoop(c, 0, nr, e) == AckLoop(one, 1, nr, e) == (one, true);
  }

  /** An RR with any number but 0 frees the one frame that is out. */
  lemma FreesOne(c: Cb, nr: nat, e: Env)
    requires c.state == Connected && |c.txq| == 1 && c.unack == c.vs == 1 && 0 < nr < 8
    ensures AxInput(c, Frame(LapbFrame.Response, S(RR, nr, false), []), e).hist.freed == c.hist.freed + 1
  {
    AckOne(SetBusy(c, false), nr, e);
    var r := AckOurs(SetBusy(c, false), nr, e);
    assert SendLoop(r, e) == r;
  }

  lemma RunThree(l: Link, s1: Step, s2: Step, s3: Step)
    ensures Run(l, [s1, s2, s3]) == Next(Next(Next(l, s1), s2), s3)
  {
    RunOne(l, s1, [s2, s3]);
    RunOne(Next(l, s1), s2, [s3]);
    RunOne(Next(Next(l, s1), s2), s3, []);
    assert [s1] + [s2, s3] == [s1, s2, s3] && [s2] + [s3] == [s2, s3] && [s3] + [] == [s3];
  }

  lemma RunOne(l: Link, s: Step, rest: seq<Step>)
    ensures Run(l, [s] + rest) == Run(Next(l, s), rest)
  {
    assert ([s] + rest)[1..] == rest;
  }

  /** All that is in a full receive queue is read: an RR is sent, whatever the state. */
  lemma ReadsAll(c: Cb)
    requires |c.asm.rxq| == c.cfg.window > 0
    ensures var r := Recv(c, c.cfg.window, c.cfg.window);
            && r.hist == c.hist
            && r.sent == c.sent + [Wire(Frame(LapbFrame.Response, S(RR, c.vr, false), []), 0, |c.hist.accepted|)]
  {
    assert c.asm.rxq[c.cfg.window..] == [];
  }

  /**
   A full receive queue left from an earlier link, read before the answer arrives: the RR bears the
   number of that link, and frees at B a frame that A has not accepted.
   */
  lemma ReadTooSoon(l: Link, x: byte, e: Env)
    requires Asking(l) && 0 < l.a.vr < 8 && |l.a.asm.rxq| == l.a.cfg.window > 0
    requires l.b.state == Connected && l.b.txq == [] && !l.b.flags.remotebusy
    ensures var steps := [AtB(SendQueue([[x]], e)), AtA(Read(l.a.cfg.window, l.a.cfg.window)), AtB(Arrive(e))];
            EarlyRun(steps) && Run(l, steps).b.hist.freed == 1 && Run(l, steps).a.hist.accepted == []
  {
    var s1, s2, s3 := AtB(SendQueue([[x]], e)), AtA(Read(l.a.cfg.window, l.a.cfg.window)), AtB(Arrive(e));
    RunThree(l, s1, s2, s3);
    SendsOne(l.b, x, e);
    ReadsAll(l.a);
    FreesOne(Next(Next(l, s1), s2).b, l.a.vr, e);
  }

  /** Until the answer arrives, B has freed only what A has accepted. */
  ghost predicate FreedIsAccepted(l: Link, early: seq<Step>) {
    EarlyRun(early) ==> Run(l, early).b.hist.freed <= |Run(l, early).a.hist.accepted|
  }

  /** With a full receive queue left, that is so over all runs if and only if no number is left with it. */
  lemma ReadsIff(l: Link)
    requires Asking(l) && l.a.vr < 8 && |l.a.asm.rxq| == l.a.cfg.window > 0
    requires l.b.state == Connected && l.b.txq == [] && !l.b.flags.remotebusy
    ensures (forall early :: FreedIsAccepted(l, early)) <==> l.a.vr == 0
  {
    if l.a.vr == 0 {
      forall early ensures FreedIsAccepted(l, early) {
        if EarlyRun(early) {
          AskedOpens(l);
          EarlyRunKeeps(l, early);
        }
      }
    } else {
      var e := Env(0, 0, 1);
      ReadTooSoon(l, 0, e);
      assert !FreedIsAccepted(l, [AtB(SendQueue([[0]], e)), AtA(Read(l.a.cfg.window, l.a.cfg.window)), AtB(Arrive(e))]);
    }
  }
}
