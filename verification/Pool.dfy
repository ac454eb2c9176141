module Pool {
  // A range of dynamic IP addresses (bootpdip.c): three queues, and reclamation of addresses no longer in use.

  import opened Lists

  type Addr = int

  type HwAddr = seq<int>

  /** One address: when it was last answered for, and by whom. */
  datatype Record = Record(time: int, hwaddr: HwAddr)

  datatype RState = Off | Reclaim | Critical | Done

  datatype VState = Swait | Verify

  const THRESH_ON := 20
  const THRESH_CRITICAL := 2
  const THRESH_OFF := 50
  const TIME_SWAIT := 30
  const TIME_ADDRRETRY := 2400
  const RECLAIM_QUEUE_MAX := 15

  /** A range descriptor. */
  datatype Range = Range(table: map<Addr, Record>, usedq: seq<Addr>, reclaimq: seq<Addr>, freeq: seq<Addr>,
                         fcount: int, rcount: int, thon: int, thoff: int, retry: int,
                         rstate: RState, vstate: VState, rtime: int, raddr: Option<Addr>)

  // Queues

  /** The one after `a`. */
  function Next(q: seq<Addr>, a: Addr): Option<Addr> {
    if q == [] then None
    else if q[0] == a then if |q| > 1 then Some(q[1]) else None
    else Next(q[1..], a)
  }

  function Head(q: seq<Addr>): Option<Addr> { if q == [] then None else Some(q[0]) }

  /** The first address whose record names the host. */
  function Find(table: map<Addr, Record>, q: seq<Addr>, hw: HwAddr): Option<Addr> {
    if q == [] then None
    else if q[0] in table && table[q[0]].hwaddr == hw then Some(q[0])
    else Find(table, q[1..], hw)
  }

  lemma {:induction false} NextIn(q: seq<Addr>, a: Addr)
    requires NoDup(q)
    ensures Next(q, a).Some? ==> Next(q, a).value in q && Next(q, a).value != a
  {
    if q != [] && q[0] != a {
      NextIn(q[1..], a);
    } else if |q| > 1 {
      assert q[1] in q[1..];
    }
  }

  lemma {:induction false} FindIn(table: map<Addr, Record>, q: seq<Addr>, hw: HwAddr)
    ensures var f := Find(table, q, hw); f.Some? ==> f.value in q && f.value in table && table[f.value].hwaddr == hw
    ensures Find(table, q, hw).None? ==> forall a :: a in q && a in table ==> table[a].hwaddr != hw
  {
    if q != [] {
      FindIn(table, q[1..], hw);
    }
  }

  // States

  function EnterReclaim(d: Range): Range {
    var d1 := if d.rstate == Off then d.(vstate := Swait, rtime := 0) else d;
    d1.(rstate := Reclaim, retry := TIME_ADDRRETRY)
  }

  function EnterCritical(d: Range): Range {
    var d1 := if d.rstate != Off then d.(vstate := Swait, rtime := 0) else d;
    d1.(rstate := Critical, retry := 0)
  }

  function EnterDone(d: Range): Range {
    if d.rstate != Off then d.(rstate := Done, retry := TIME_ADDRRETRY) else d
  }

  // Assignment

  datatype Got = Got(d: Range, addr: Option<Addr>)

  /** Where the address for a host is to come from. */
  function OldAddr(d: Range, hw: HwAddr): Got {
    var u, r, f := Find(d.table, d.usedq, hw), Find(d.table, d.reclaimq, hw), Find(d.table, d.freeq, hw);
    if u.Some? then Got(d.(usedq := Remove(d.usedq, u.value)), u)
    else if r.Some? then
      var d1 := if d.rstate != Off && d.vstate == Verify && d.raddr == r then d.(vstate := Swait) else d;
      Got(d1.(reclaimq := Remove(d.reclaimq, r.value)), r)
    else if f.Some? then Got(d.(freeq := Remove(d.freeq, f.value), fcount := d.fcount - 1), f)
    else Got(d, None)
  }

  function FreeAddr(d: Range): Got {
    if d.freeq == [] then Got(d, None)
    else Got(d.(freeq := d.freeq[1..], fcount := d.fcount - 1), Some(d.freeq[0]))
  }

  function Chosen(d: Range, hw: HwAddr): Got {
    if OldAddr(d, hw).addr.Some? then OldAddr(d, hw) else FreeAddr(d)
  }

  function Granted(g: Got, hw: HwAddr, now: int): Range {
    if g.addr.None? then g.d
    else g.d.(table := g.d.table[g.addr.value := Record(now, hw)], usedq := g.d.usedq + [g.addr.value])
  }

  /** The end of `da_assign`: with few addresses left, reclamation starts or hurries. */
  function Pressed(d: Range): Range {
    var d1 := if d.rstate in {Off, Done} && d.fcount <= d.thon then EnterReclaim(d) else d;
    if d.rstate != Critical && d1.fcount <= THRESH_CRITICAL then EnterCritical(d1) else d1
  }

  /** `da_assign` */
  function Assign(d: Range, hw: HwAddr, now: int): Got {
    var g := Chosen(d, hw);
    Got(Pressed(Granted(g, hw, now)), g.addr)
  }

  // The periodic task

  /** `da_fill_reclaim`: from the head of the used queue, until the queue is full or an address is too fresh. */
  function Fill(d: Range, now: int): Range
    decreases |d.usedq|
  {
    if d.rcount >= RECLAIM_QUEUE_MAX || d.usedq == [] then d
    else
      var a := d.usedq[0];
      if a !in d.table || now - d.table[a].time < d.retry then d
      else Fill(d.(usedq := d.usedq[1..], table := d.table[a := d.table[a].(time := now)],
                   reclaimq := d.reclaimq + [a], rcount := d.rcount + 1), now)
  }

  /** `da_do_verify`; `answer` is the host that answered for the address being verified, if one did. */
  function DoVerify(d: Range, now: int, pendtime: int, answer: Option<HwAddr>): Range {
    if d.raddr.None? then d.(raddr := Head(d.reclaimq), rtime := now)
    else
      var a := d.raddr.value;
      var d1 := d.(raddr := Next(d.reclaimq, a), rtime := now);
      if answer.Some? then
        d1.(reclaimq := Remove(d.reclaimq, a), rcount := d.rcount - 1,
            table := d.table[a := Record(now, answer.value)], usedq := d.usedq + [a])
      else if a in d.table && now - d.table[a].time >= pendtime then
        d1.(reclaimq := Remove(d.reclaimq, a), rcount := d.rcount - 1, freeq := d.freeq + [a], fcount := d.fcount + 1)
      else d1
  }

  function Started(d: Range, now: int): Range {
    if d.vstate == Swait && now - d.rtime > TIME_SWAIT then
      (if d.rstate != Done then Fill(d, now) else d).(vstate := Verify, raddr := None)
    else d
  }

  function Verified(d: Range, now: int, pendtime: int, answer: Option<HwAddr>): Range {
    if d.vstate == Verify && now - d.rtime > pendtime then
      var d1 := DoVerify(d, now, pendtime, answer);
      if d1.raddr.None? then d1.(vstate := Swait) else d1
    else d
  }

  function Relaxed(d: Range): Range {
    var d1 := if d.rstate == Critical && d.fcount > THRESH_CRITICAL then EnterReclaim(d) else d;
    var d2 := if d.rstate in {Critical, Reclaim} && d.fcount > d.thoff then EnterDone(d1) else d1;
    if d2.rstate == Done && d2.reclaimq == [] then d2.(rstate := Off) else d2
  }

  /** `da_task`, for one range. */
  function Task(d: Range, now: int, pendtime: int, answer: Option<HwAddr>): Range {
    if d.rstate == Off then d else Relaxed(Verified(Started(d, now), now, pendtime, answer))
  }

  // The invariant

  /** Every address is on exactly one queue. */
  ghost predicate Partition(d: Range) {
    && NoDup(d.usedq) && NoDup(d.reclaimq) && NoDup(d.freeq)
    && (forall a :: a in d.table <==> a in d.usedq || a in d.reclaimq || a in d.freeq)
    && (forall a :: a in d.usedq ==> a !in d.reclaimq && a !in d.freeq) && (forall a :: a in d.reclaimq ==> a !in d.freeq)
  }

  /**
   Counts, with `hits` the assignments so far that took an address off the reclaim queue
   (`da_get_old_addr` does not count those out); and the address being verified is on that queue.
   */
  ghost predicate Inv(d: Range, hits: nat) {
    && Partition(d) && d.fcount == |d.freeq| && d.rcount == |d.reclaimq| + hits && d.rcount <= RECLAIM_QUEUE_MAX
    && (d.vstate == Verify && d.raddr.Some? ==> d.raddr.value in d.reclaimq)
    && (d.rstate == Off ==> d.reclaimq == [])
  }

  /** Whether this assignment takes an address off the reclaim queue. */
  predicate Hit(d: Range, hw: HwAddr) { Find(d.table, d.usedq, hw).None? && Find(d.table, d.reclaimq, hw).Some? }

  /** An address leaves the three queues: the rest still partition the others. */
  ghost predicate Without(d: Range, a: Addr) {
    && NoDup(d.usedq) && NoDup(d.reclaimq) && NoDup(d.freeq) && a in d.table
    && (forall b :: b in d.table && b != a <==> b in d.usedq || b in d.reclaimq || b in d.freeq)
    && (forall b :: b in d.usedq ==> b !in d.reclaimq && b !in d.freeq) && (forall b :: b in d.reclaimq ==> b !in d.freeq)
  }

  lemma ChosenWithout(d: Range, hw: HwAddr)
    requires Partition(d)
    ensures var g := Chosen(d, hw); if g.addr.Some? then Without(g.d, g.addr.value) else g.d == d
  {
    FindIn(d.table, d.usedq, hw);
    FindIn(d.table, d.reclaimq, hw);
    FindIn(d.table, d.freeq, hw);
    var g := Chosen(d, hw);
    if g.addr.Some? {
      RemoveKeeps(d.usedq, g.addr.value);
      RemoveKeeps(d.reclaimq, g.addr.value);
      RemoveKeeps(d.freeq, g.addr.value);
      if OldAddr(d, hw).addr.None? {
        forall b ensures b in d.freeq <==> b == d.freeq[0] || b in d.freeq[1..] {
        }
      }
    }
  }

  lemma ChosenCounts(d: Range, hw: HwAddr, hits: nat)
    requires Inv(d, hits)
    ensures var g := Chosen(d, hw);
            && g.d.fcount == |g.d.freeq| && g.d.rcount == d.rcount
            && d.rcount == |g.d.reclaimq| + hits + (if Hit(d, hw) then 1 else 0)
            && (g.d.vstate == Verify && g.d.raddr.Some? ==> g.d.raddr.value in g.d.reclaimq)
            && (g.d.rstate == Off ==> g.d.reclaimq == [])
  {
    FindIn(d.table, d.usedq, hw);
    FindIn(d.table, d.reclaimq, hw);
    FindIn(d.table, d.freeq, hw);
    var g := Chosen(d, hw);
    if g.addr.Some? {
      RemoveKeeps(d.reclaimq, g.addr.value);
      RemoveKeeps(d.freeq, g.addr.value);
      if d.vstate == Verify && d.raddr.Some? {
        var v := d.raddr.value;
        assert v in d.reclaimq && (v in Remove(d.reclaimq, g.addr.value) <==> v != g.addr.value);
        assert Hit(d, hw) && v == g.addr.value ==> d.rstate != Off && d.raddr == g.addr;
      }
    }
  }

  lemma AssignKeeps(d: Range, hw: HwAddr, now: int, hits: nat)
    requires Inv(d, hits)
    ensures Inv(Assign(d, hw, now).d, hits + if Hit(d, hw) then 1 else 0)
  {
    ChosenWithout(d, hw);
    ChosenCounts(d, hw, hits);
    var g := Chosen(d, hw);
    var d1 := Granted(g, hw, now);
    if g.addr.Some? {
      AppendKeeps(g.d.usedq, g.addr.value);
      forall b ensures b in d1.usedq <==> b in g.d.usedq || b == g.addr.value {
      }
    }
    PressedKeeps(d1, hits + if Hit(d, hw) then 1 else 0);
  }

  lemma {:induction false} FillKeeps(d: Range, now: int, hits: nat)
    requires Inv(d, hits) && d.vstate == Swait && d.rstate != Off
    ensures Inv(Fill(d, now), hits) && Fill(d, now).vstate == Swait && Fill(d, now).rstate == d.rstate
    decreases |d.usedq|
  {
    if d.rcount < RECLAIM_QUEUE_MAX && d.usedq != [] {
      var a := d.usedq[0];
      assert a in d.usedq;
      if now - d.table[a].time >= d.retry {
        var d1 := d.(usedq := d.usedq[1..], table := d.table[a := d.table[a].(time := now)],
                     reclaimq := d.reclaimq + [a], rcount := d.rcount + 1);
        AppendKeeps(d.reclaimq, a);
        forall b ensures (b in d1.reclaimq <==> b in d.reclaimq || b == a) && (b in d.usedq <==> b == a || b in d1.usedq) {
        }
        FillKeeps(d1, now, hits);
      }
    }
  }

  lemma DoVerifyKeeps(d: Range, now: int, pendtime: int, answer: Option<HwAddr>, hits: nat)
    requires Inv(d, hits) && d.vstate == Verify && d.rstate != Off
    ensures Inv(DoVerify(d, now, pendtime, answer), hits)
  {
    if d.raddr.Some? {
      var a := d.raddr.value;
      var d1 := DoVerify(d, now, pendtime, answer);
      RemoveKeeps(d.reclaimq, a);
      NextIn(d.reclaimq, a);
      AppendKeeps(d.usedq, a);
      AppendKeeps(d.freeq, a);
      forall b ensures (b in d.usedq + [a] <==> b in d.usedq || b == a) && (b in d.freeq + [a] <==> b in d.freeq || b == a) {
      }
    } else if d.reclaimq != [] {
      assert d.reclaimq[0] in d.reclaimq;
    }
  }

  lemma TaskKeeps(d: Range, now: int, pendtime: int, answer: Option<HwAddr>, hits: nat)
    requires Inv(d, hits)
    ensures Inv(Task(d, now, pendtime, answer), hits)
  {
    if d.rstate != Off {
      if d.vstate == Swait {
        FillKeeps(d, now, hits);
      }
      var d1 := Started(d, now);
      VerifiedKeeps(d1, now, pendtime, answer, hits);
      RelaxedKeeps(Verified(d1, now, pendtime, answer), hits);
    }
  }

  lemma VerifiedKeeps(d: Range, now: int, pendtime: int, answer: Option<HwAddr>, hits: nat)
    requires Inv(d, hits) && d.rstate != Off
    ensures Inv(Verified(d, now, pendtime, answer), hits) && Verified(d, now, pendtime, answer).rstate != Off
  {
    if d.vstate == Verify {
      DoVerifyKeeps(d, now, pendtime, answer, hits);
    }
  }

  lemma RelaxedKeeps(d: Range, hits: nat)
    requires Inv(d, hits) && d.rstate != Off
    ensures Inv(Relaxed(d), hits)
  {
    var d1 := if d.rstate == Critical && d.fcount > THRESH_CRITICAL then EnterReclaim(d) else d;
    assert Inv(d1, hits);
  }

  lemma PressedKeeps(d: Range, hits: nat)
    requires Inv(d, hits)
    ensures Inv(Pressed(d), hits)
  {
    var d1 := if d.rstate in {Off, Done} && d.fcount <= d.thon then EnterReclaim(d) else d;
    assert Inv(d1, hits);
  }

  // Whole runs

  function Addresses(start: Addr, n: nat): (q: seq<Addr>)
    ensures |q| == n && forall i :: 0 <= i < n ==> q[i] == start + i
    decreases n
  {
    if n == 0 then [] else [start] + Addresses(start + 1, n - 1)
  }

  /** `da_serve_net`, for a range not served before: every address is thought used, and none has answered. */
  function Fresh(start: Addr, n: nat, hw: HwAddr): Range {
    EnterCritical(Range(map a | a in Addresses(start, n) :: Record(0, hw), Addresses(start, n), [], [],
                        0, 0, n * THRESH_ON / 100, n * THRESH_OFF / 100, 0, Off, Swait, 0, None))
  }

  datatype Event = Ask(hw: HwAddr, now: int) | Tick(now: int, pendtime: int, answer: Option<HwAddr>)

  function Step(d: Range, e: Event): Range {
    match e
    case Ask(hw, now) => Assign(d, hw, now).d
    case Tick(now, pendtime, answer) => Task(d, now, pendtime, answer)
  }

  function Run(d: Range, es: seq<Event>): Range
    decreases |es|
  {
    if es == [] then d else Run(Step(d, es[0]), es[1..])
  }

  function HitBy(d: Range, e: Event): nat { if e.Ask? && Hit(d, e.hw) then 1 else 0 }

  /** How many assignments of a run take an address off the reclaim queue. */
  function Hits(d: Range, es: seq<Event>): nat
    decreases |es|
  {
    if es == [] then 0 else HitBy(d, es[0]) + Hits(Step(d, es[0]), es[1..])
  }

  lemma StepKeeps(d: Range, e: Event, hits: nat)
    requires Inv(d, hits)
    ensures Inv(Step(d, e), hits + HitBy(d, e))
  {
    match e
    case Ask(hw, now) => AssignKeeps(d, hw, now, hits);
    case Tick(now, pendtime, answer) => TaskKeeps(d, now, pendtime, answer, hits);
  }

  lemma {:induction false} RunKeeps(d: Range, es: seq<Event>, hits: nat)
    requires Inv(d, hits)
    ensures Inv(Run(d, es), hits + Hits(d, es))
    decreases |es|
  {
    if es != [] {
      StepKeeps(d, es[0], hits);
      RunKeeps(Step(d, es[0]), es[1..], hits + HitBy(d, es[0]));
    }
  }

  lemma {:induction false} AddressesApart(start: Addr, n: nat)
    ensures NoDup(Addresses(start, n))
    decreases n
  {
    if n > 0 {
      AddressesApart(start + 1, n - 1);
      assert Addresses(start, n)[1..] == Addresses(start + 1, n - 1);
    }
  }

  lemma FreshInv(start: Addr, n: nat, hw: HwAddr)
    ensures Inv(Fresh(start, n, hw), 0)
  {
    AddressesApart(start, n);
  }

  /**
   Over all runs from a fresh range, the queues partition the addresses and the free count is right;
   the reclaim count is right if and only if no assignment took an address off the reclaim queue.
   */
  lemma Conserved(start: Addr, n: nat, hw: HwAddr, es: seq<Event>)
    ensures var d0 := Fresh(start, n, hw);
            var d := Run(d0, es);
            && Partition(d) && d.fcount == |d.freeq| && |d.reclaimq| <= d.rcount <= RECLAIM_QUEUE_MAX
            && (d.vstate == Verify && d.raddr.Some? ==> d.raddr.value in d.reclaimq)
            && (d.rcount == |d.reclaimq| <==> Hits(d0, es) == 0)
  {
    FreshInv(start, n, hw);
    RunKeeps(Fresh(start, n, hw), es, 0);
  }

  /** After fifteen such assignments the reclaim queue counts as full for ever: nothing is reclaimed again. */
  lemma {:induction false} ReclaimStops(d: Range, es: seq<Event>)
    requires Inv(d, RECLAIM_QUEUE_MAX)
    ensures Inv(Run(d, es), RECLAIM_QUEUE_MAX) && |Run(d, es).freeq| <= |d.freeq|
    decreases |es|
  {
    if es != [] {
      StepKeeps(d, es[0], RECLAIM_QUEUE_MAX);
      if es[0].Ask? {
        AskTakes(d, es[0].hw, es[0].now);
      } else {
        TickFreesNone(d, es[0].now, es[0].pendtime, es[0].answer);
      }
      ReclaimStops(Step(d, es[0]), es[1..]);
    }
  }

  lemma AskTakes(d: Range, hw: HwAddr, now: int)
    requires Inv(d, RECLAIM_QUEUE_MAX)
    ensures !Hit(d, hw) && |Assign(d, hw, now).d.freeq| <= |d.freeq|
  {
    FindIn(d.table, d.reclaimq, hw);
    ChosenTakes(d, hw);
    PressedFree(Granted(Chosen(d, hw), hw, now));
  }

  lemma ChosenTakes(d: Range, hw: HwAddr)
    requires NoDup(d.freeq)
    ensures |Chosen(d, hw).d.freeq| <= |d.freeq|
  {
    var f := Find(d.table, d.freeq, hw);
    if f.Some? {
      RemoveKeeps(d.freeq, f.value);
    }
  }

  lemma PressedFree(d: Range)
    ensures Pressed(d).freeq == d.freeq
  {
  }

  lemma TickFreesNone(d: Range, now: int, pendtime: int, answer: Option<HwAddr>)
    requires Inv(d, RECLAIM_QUEUE_MAX)
    ensures Task(d, now, pendtime, answer).freeq == d.freeq
  {
    assert d.reclaimq == [];
    var d1 := Started(d, now);
    assert d1.freeq == d.freeq && d1.reclaimq == [] && (d1.vstate == Verify ==> d1.raddr.None?);
  }

  /** One address, used; the count is `k` too high. */
  predicate Drifted(d: Range, a: Addr, hw: HwAddr, k: nat, now: int) {
    && d.usedq == [a] && d.reclaimq == [] && d.freeq == []
    && a in d.table && d.table[a].hwaddr == hw && d.table[a].time <= now
    && d.fcount == 0 && d.rcount == k && d.thoff == 0 && d.retry == 0
    && d.rstate == Critical && d.vstate == Swait && d.rtime <= now
  }

  function Cycle(hw: HwAddr, now: int): seq<Event> { [Tick(now, 0, None), Ask(hw, now)] }

  lemma CycleDrifts(d: Range, a: Addr, hw: HwAddr, k: nat, now: int)
    requires Drifted(d, a, hw, k, now) && k < RECLAIM_QUEUE_MAX
    ensures var es := Cycle(hw, now + TIME_SWAIT + 1);
            Drifted(Run(d, es), a, hw, k + 1, now + TIME_SWAIT + 1) && Hits(d, es) == 1
  {
    var t := now + TIME_SWAIT + 1;
    var es := Cycle(hw, t);
    var filled := d.(usedq := d.usedq[1..], table := d.table[a := d.table[a].(time := t)],
                     reclaimq := d.reclaimq + [a], rcount := d.rcount + 1);
    assert Fill(filled, t) == filled;
    assert Fill(d, t) == filled;
    var d1 := Step(d, es[0]);
    assert d1.reclaimq == [a] && d1.usedq == [] && d1.raddr == Some(a) && d1.vstate == Verify && d1.rstate == Critical;
    var d2 := Step(d1, es[1]);
    assert es[1..] == [es[1]] && es[1..][1..] == [];
    assert Run(d1, es[1..]) == Run(d2, []);
    assert Hits(d1, es[1..]) == 1 + Hits(d2, []);
  }

  lemma {:induction false} RunAppend(d: Range, es: seq<Event>, fs: seq<Event>)
    ensures Run(d, es + fs) == Run(Run(d, es), fs) && Hits(d, es + fs) == Hits(d, es) + Hits(Run(d, es), fs)
    decreases |es|
  {
    if es == [] {
      assert es + fs == fs;
    } else {
      assert (es + fs)[1..] == es[1..] + fs;
      RunAppend(Step(d, es[0]), es[1..], fs);
    }
  }

  /** That can happen: here is a run of one range that does it. */
  lemma {:induction false} CanStop(start: Addr, hw: HwAddr, k: nat) returns (es: seq<Event>, now: int)
    requires k <= RECLAIM_QUEUE_MAX
    ensures Drifted(Run(Fresh(start, 1, hw), es), start, hw, k, now) && Hits(Fresh(start, 1, hw), es) == k
    ensures Inv(Run(Fresh(start, 1, hw), es), k)
  {
    var d0 := Fresh(start, 1, hw);
    if k == 0 {
      es, now := [], 0;
      assert Addresses(start, 1) == [start];
    } else {
      var es0, now0 := CanStop(start, hw, k - 1);
      CycleDrifts(Run(d0, es0), start, hw, k - 1, now0);
      now := now0 + TIME_SWAIT + 1;
      es := es0 + Cycle(hw, now);
      RunAppend(d0, es0, Cycle(hw, now));
    }
    FreshInv(start, 1, hw);
    RunKeeps(d0, es, 0);
  }

  // The range descriptor, changed in place

  class RangeDesc {
    const thon: int
    const thoff: int
    var table: map<Addr, Record>
    var usedq: seq<Addr>
    var reclaimq: seq<Addr>
    var freeq: seq<Addr>
    var fcount: int
    var rcount: int
    var retry: int
    var rstate: RState
    var vstate: VState
    var rtime: int
    var raddr: Option<Addr>

    function Value(): Range
      reads this
    {
      Range(table, usedq, reclaimq, freeq, fcount, rcount, thon, thoff, retry, rstate, vstate, rtime, raddr)
    }

    /** `da_serve_net` */
    constructor (start: Addr, n: nat, hw: HwAddr)
      ensures Value() == Fresh(start, n, hw)
    {
      thon, thoff := n * THRESH_ON / 100, n * THRESH_OFF / 100;
      table, usedq := map a | a in Addresses(start, n) :: Record(0, hw), Addresses(start, n);
      reclaimq, freeq, fcount, rcount := [], [], 0, 0;
      retry, rstate, vstate, rtime, raddr := 0, Critical, Swait, 0, None;
    }

    /** The first address on a queue whose record names the host. */
    method Search(q: seq<Addr>, hw: HwAddr) returns (a: Option<Addr>)
      ensures a == Find(table, q, hw)
    {
      var rest := q;
      while rest != []
        invariant Find(table, rest, hw) == Find(table, q, hw)
        decreases |rest|
      {
        if rest[0] in table && table[rest[0]].hwaddr == hw {
          return Some(rest[0]);
        }
        rest := rest[1..];
      }
      a := None;
    }

    /** `da_get_old_addr` */
    method GetOldAddr(hw: HwAddr) returns (a: Option<Addr>)
      modifies this`usedq, this`reclaimq, this`freeq, this`fcount, this`vstate
      ensures Got(Value(), a) == OldAddr(old(Value()), hw)
    {
      a := Search(usedq, hw);
      if a.Some? {
        usedq := Remove(usedq, a.value);
        return;
      }
      a := Search(reclaimq, hw);
      if a.Some? {
        if rstate != Off && vstate == Verify && raddr == a {
          vstate := Swait;
        }
        reclaimq := Remove(reclaimq, a.value);
        return;
      }
      a := Search(freeq, hw);
      if a.Some? {
        freeq := Remove(freeq, a.value);
        fcount := fcount - 1;
      }
    }

    /** `da_get_free_addr` */
    method GetFreeAddr() returns (a: Option<Addr>)
      modifies this`freeq, this`fcount
      ensures Got(Value(), a) == FreeAddr(old(Value()))
    {
      if freeq == [] {
        return None;
      }
      a := Some(freeq[0]);
      freeq := freeq[1..];
      fcount := fcount - 1;
    }

    /** `da_assign`, once the range is found; none where the source returns an error. */
    method AssignAddr(hw: HwAddr, now: int) returns (a: Option<Addr>)
      modifies this
      ensures Got(Value(), a) == Assign(old(Value()), hw, now)
    {
      a := GetOldAddr(hw);
      if a.None? {
        a := GetFreeAddr();
      }
      if a.Some? {
        table := table[a.value := Record(now, hw)];
        usedq := usedq + [a.value];
      }
      Press();
    }

    method Press()
      modifies this`rstate, this`vstate, this`rtime, this`retry
      ensures Value() == Pressed(old(Value()))
    {
      if rstate == Critical {
        return;
      }
      if rstate != Reclaim && fcount <= thon {
        StartReclaim();
      }
      if fcount <= THRESH_CRITICAL {
        if rstate != Off {
          vstate, rtime := Swait, 0;
        }
        rstate, retry := Critical, 0;
      }
    }

    method StartReclaim()
      modifies this`rstate, this`vstate, this`rtime, this`retry
      ensures Value() == EnterReclaim(old(Value()))
    {
      if rstate == Off {
        vstate, rtime := Swait, 0;
      }
      rstate, retry := Reclaim, TIME_ADDRRETRY;
    }

    /** `da_fill_reclaim` */
    method FillReclaim(now: int)
      modifies this`table, this`usedq, this`reclaimq, this`rcount
      ensures Value() == Fill(old(Value()), now)
    {
      while rcount < RECLAIM_QUEUE_MAX && usedq != [] && usedq[0] in table && now - table[usedq[0]].time >= retry
        invariant Fill(Value(), now) == Fill(old(Value()), now)
        decreases |usedq|
      {
        var a := usedq[0];
        usedq := usedq[1..];
        table := table[a := table[a].(time := now)];
        reclaimq := reclaimq + [a];
        rcount := rcount + 1;
      }
    }

    /** `da_do_verify` */
    method VerifyOne(now: int, pendtime: int, answer: Option<HwAddr>)
      modifies this
      ensures Value() == DoVerify(old(Value()), now, pendtime, answer)
    {
      var dn := Head(reclaimq);
      if raddr.Some? {
        var a := raddr.value;
        dn := Next(reclaimq, a);
        if answer.Some? {
          reclaimq, rcount := Remove(reclaimq, a), rcount - 1;
          table := table[a := Record(now, answer.value)];
          usedq := usedq + [a];
        } else if a in table && now - table[a].time >= pendtime {
          reclaimq, rcount := Remove(reclaimq, a), rcount - 1;
          freeq, fcount := freeq + [a], fcount + 1;
        }
      }
      raddr, rtime := dn, now;
    }

    /** `da_task`, for this range. */
    method RunTask(now: int, pendtime: int, answer: Option<HwAddr>)
      modifies this
      ensures Value() == Task(old(Value()), now, pendtime, answer)
    {
      if rstate == Off {
        return;
      }
      if vstate == Swait && now - rtime > TIME_SWAIT {
        if rstate != Done {
          FillReclaim(now);
        }
        vstate, raddr := Verify, None;
      }
      if vstate == Verify && now - rtime > pendtime {
        VerifyOne(now, pendtime, answer);
        if raddr.None? {
          vstate := Swait;
        }
      }
      Relax();
    }

    method Relax()
      modifies this`rstate, this`vstate, this`rtime, this`retry
      ensures Value() == Relaxed(old(Value()))
    {
      var was := rstate;
      if was == Critical && fcount > THRESH_CRITICAL {
        StartReclaim();
      }
      if (was == Critical || was == Reclaim) && fcount > thoff && rstate != Off {
        rstate, retry := Done, TIME_ADDRRETRY;
      }
      if rstate == Done && reclaimq == [] {
        rstate := Off;
      }
    }
  }
}
