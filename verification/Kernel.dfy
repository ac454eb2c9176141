module Kernel {
  // The scheduler (kernel.c): ready, wait and suspend lists, and the queue of signals from interrupts.

  import opened Lists

  /** A process, by the address of its descriptor. */
  type Pid = nat

  /** An event, by its address; `NULL` is no event. */
  type Event = nat

  const NULL: Event := 0
  const PHASH := 16
  const SIGQSIZE := 200
  const EVERYBODY := 65535

  datatype Proc = Proc(suspend: bool, waiting: bool, event: Event, retval: int)

  datatype Sig = Sig(event: Event, n: nat)

  /** The process table, the lists and the running process. */
  datatype Tables = Tables(procs: map<Pid, Proc>, susp: seq<Pid>, rdy: seq<Pid>, wait: seq<seq<Pid>>, cur: Pid)

  /** The list a process belongs on. */
  datatype Place = OnSusp | OnRdy | OnWait(h: nat)

  type Hash = Event -> nat

  ghost predicate HashOk(hash: Hash) { forall e :: hash(e) < PHASH }

  function PlaceOf(pr: Proc, hash: Hash): Place {
    if pr.suspend then OnSusp else if pr.waiting then OnWait(hash(pr.event)) else OnRdy
  }

  function ListAt(k: Tables, pl: Place): seq<Pid> {
    match pl
    case OnSusp => k.susp
    case OnRdy => k.rdy
    case OnWait(h) => if h < |k.wait| then k.wait[h] else []
  }

  function WithList(k: Tables, pl: Place, s: seq<Pid>): (k': Tables)
    ensures k'.procs == k.procs && k'.cur == k.cur && |k'.wait| == |k.wait|
    ensures forall q :: ListAt(k', q) == if q == pl && (pl.OnWait? ==> pl.h < |k.wait|) then s else ListAt(k, q)
  {
    match pl
    case OnSusp => k.(susp := s)
    case OnRdy => k.(rdy := s)
    case OnWait(h) => if h < |k.wait| then k.(wait := k.wait[h := s]) else k
  }

  // Every process but those in `off` is on exactly one list, the one its flags and event select

  ghost predicate On(k: Tables, p: Pid, pl: Place) { p in ListAt(k, pl) }

  ghost predicate Belongs(k: Tables, p: Pid, pl: Place, hash: Hash, off: set<Pid>) {
    p in k.procs && p !in off && PlaceOf(k.procs[p], hash) == pl
  }

  ghost predicate Listed(k: Tables, hash: Hash, off: set<Pid>) {
    && HashOk(hash) && |k.wait| == PHASH && k.cur in k.procs
    && (forall pl :: NoDup(ListAt(k, pl)))
    && (forall p, pl {:trigger On(k, p, pl)} :: On(k, p, pl) <==> Belongs(k, p, pl, hash, off))
  }

  /** Outside `kwait`, the running process is on no list and every other is on one. */
  ghost predicate Ok(k: Tables, hash: Hash) { Listed(k, hash, {k.cur}) }

  /** `addproc`: to the end of the list its flags select. */
  function Add(k: Tables, p: Pid, hash: Hash): Tables
    requires p in k.procs
  {
    var pl := PlaceOf(k.procs[p], hash);
    WithList(k, pl, ListAt(k, pl) + [p])
  }

  /** `delproc` */
  function Del(k: Tables, p: Pid, hash: Hash): Tables
    requires p in k.procs
  {
    var pl := PlaceOf(k.procs[p], hash);
    WithList(k, pl, Remove(ListAt(k, pl), p))
  }

  function Set(k: Tables, p: Pid, pr: Proc): Tables { k.(procs := k.procs[p := pr]) }

  lemma DelKeeps(k: Tables, p: Pid, hash: Hash, off: set<Pid>)
    requires Listed(k, hash, off) && p in k.procs && p !in off
    ensures Listed(Del(k, p, hash), hash, off + {p})
  {
    var k' := Del(k, p, hash);
    RemoveKeeps(ListAt(k, PlaceOf(k.procs[p], hash)), p);
    forall q, pl ensures On(k', q, pl) <==> Belongs(k', q, pl, hash, off + {p}) {
      assert On(k, q, pl) <==> Belongs(k, q, pl, hash, off);
    }
  }

  lemma SetKeeps(k: Tables, p: Pid, pr: Proc, hash: Hash, off: set<Pid>)
    requires Listed(k, hash, off) && p in off
    ensures Listed(Set(k, p, pr), hash, off)
  {
    var k' := Set(k, p, pr);
    forall pl ensures ListAt(k', pl) == ListAt(k, pl) {
    }
    forall q, pl ensures On(k', q, pl) <==> Belongs(k', q, pl, hash, off) {
      assert On(k, q, pl) <==> Belongs(k, q, pl, hash, off);
    }
  }

  lemma AddKeeps(k: Tables, p: Pid, hash: Hash, off: set<Pid>)
    requires Listed(k, hash, off) && p in k.procs && p in off
    ensures Listed(Add(k, p, hash), hash, off - {p})
  {
    var k' := Add(k, p, hash);
    var home := PlaceOf(k.procs[p], hash);
    assert !On(k, p, home);
    AppendKeeps(ListAt(k, home), p);
    forall q, pl ensures On(k', q, pl) <==> Belongs(k', q, pl, hash, off - {p}) {
      assert On(k, q, pl) <==> Belongs(k, q, pl, hash, off);
    }
  }

  /** Take a process off its list, change it, and put it on the list it now belongs on. */
  function Move(k: Tables, p: Pid, pr: Proc, hash: Hash): Tables
    requires p in k.procs
  {
    Add(Set(Del(k, p, hash), p, pr), p, hash)
  }

  lemma MoveKeeps(k: Tables, p: Pid, pr: Proc, hash: Hash, off: set<Pid>)
    requires Listed(k, hash, off) && p in k.procs && p !in off
    ensures Listed(Move(k, p, pr, hash), hash, off)
  {
    DelKeeps(k, p, hash, off);
    SetKeeps(Del(k, p, hash), p, pr, hash, off + {p});
    AddKeeps(Set(Del(k, p, hash), p, pr), p, hash, off + {p});
    assert off + {p} - {p} == off;
  }

  // Signals

  /** The first `n` processes of a list that wait for `e`. */
  function Picks(procs: map<Pid, Proc>, s: seq<Pid>, e: Event, n: nat): seq<Pid> {
    if s == [] || n == 0 then []
    else if s[0] in procs && procs[s[0]].event == e then [s[0]] + Picks(procs, s[1..], e, n - 1)
    else Picks(procs, s[1..], e, n)
  }

  function Woken(pr: Proc): Proc { pr.(waiting := false, retval := 0, event := NULL) }

  function Wake(k: Tables, p: Pid, hash: Hash): Tables {
    if p in k.procs then Move(k, p, Woken(k.procs[p]), hash) else k
  }

  function WakeAll(k: Tables, ps: seq<Pid>, hash: Hash): Tables
    decreases |ps|
  {
    if ps == [] then k else WakeAll(Wake(k, ps[0], hash), ps[1..], hash)
  }

  /** `ksig`: the first `n` waiters in list order; then, if any are left to wake, the suspended ones. */
  function KSig(k: Tables, e: Event, n0: nat, hash: Hash): Tables {
    if e == NULL then k
    else
      var n := if n0 == 0 then EVERYBODY else n0;
      var a := Picks(k.procs, ListAt(k, OnWait(hash(e))), e, n);
      WakeFrom(WakeFrom(k, OnWait(hash(e)), e, n, hash), OnSusp, e, Left(n, |a|), hash)
  }

  /** The first `n` on one list that wait for `e` are woken. */
  function WakeFrom(k: Tables, pl: Place, e: Event, n: nat, hash: Hash): Tables {
    WakeAll(k, Picks(k.procs, ListAt(k, pl), e, n), hash)
  }

  function Left(n: nat, used: nat): nat { if used <= n then n - used else 0 }

  /** `procsigs` */
  function Apply(k: Tables, sigs: seq<Sig>, hash: Hash): Tables
    decreases |sigs|
  {
    if sigs == [] then k else Apply(KSig(k, sigs[0].event, sigs[0].n, hash), sigs[1..], hash)
  }

  lemma {:induction false} WakeAllKeeps(k: Tables, ps: seq<Pid>, hash: Hash, off: set<Pid>)
    requires Listed(k, hash, off) && forall p :: p in ps ==> p in k.procs && p !in off
    ensures Listed(WakeAll(k, ps, hash), hash, off) && SameProcs(k, WakeAll(k, ps, hash))
    decreases |ps|
  {
    if ps != [] {
      assert ps[0] in ps;
      MoveKeeps(k, ps[0], Woken(k.procs[ps[0]]), hash, off);
      WakeAllKeeps(Wake(k, ps[0], hash), ps[1..], hash, off);
    }
  }

  /** The same processes exist and the same one runs. */
  ghost predicate SameProcs(k: Tables, k': Tables) { k'.cur == k.cur && forall p :: p in k'.procs <==> p in k.procs }

  lemma {:induction false} PicksIn(procs: map<Pid, Proc>, s: seq<Pid>, e: Event, n: nat)
    ensures |Picks(procs, s, e, n)| <= n
    ensures forall p :: p in Picks(procs, s, e, n) ==> p in s && p in procs && procs[p].event == e
  {
    if s != [] && n > 0 {
      PicksIn(procs, s[1..], e, if s[0] in procs && procs[s[0]].event == e then n - 1 else n);
    }
  }

  lemma WakeFromKeeps(k: Tables, pl: Place, e: Event, n: nat, hash: Hash, off: set<Pid>)
    requires Listed(k, hash, off)
    ensures Listed(WakeFrom(k, pl, e, n, hash), hash, off) && SameProcs(k, WakeFrom(k, pl, e, n, hash))
  {
    var s := ListAt(k, pl);
    PicksIn(k.procs, s, e, n);
    forall p | p in Picks(k.procs, s, e, n) ensures p in k.procs && p !in off {
      assert On(k, p, pl);
    }
    WakeAllKeeps(k, Picks(k.procs, s, e, n), hash, off);
  }

  lemma KSigKeeps(k: Tables, e: Event, n0: nat, hash: Hash, off: set<Pid>)
    requires Listed(k, hash, off)
    ensures Listed(KSig(k, e, n0, hash), hash, off) && SameProcs(k, KSig(k, e, n0, hash))
  {
    if e != NULL {
      var n := if n0 == 0 then EVERYBODY else n0;
      var a := Picks(k.procs, ListAt(k, OnWait(hash(e))), e, n);
      WakeFromKeeps(k, OnWait(hash(e)), e, n, hash, off);
      WakeFromKeeps(WakeFrom(k, OnWait(hash(e)), e, n, hash), OnSusp, e, Left(n, |a|), hash, off);
    }
  }

  lemma {:induction false} ApplyKeeps(k: Tables, sigs: seq<Sig>, hash: Hash, off: set<Pid>)
    requires Listed(k, hash, off)
    ensures Listed(Apply(k, sigs, hash), hash, off) && SameProcs(k, Apply(k, sigs, hash))
    decreases |sigs|
  {
    if sigs != [] {
      KSigKeeps(k, sigs[0].event, sigs[0].n, hash, off);
      ApplyKeeps(KSig(k, sigs[0].event, sigs[0].n, hash), sigs[1..], hash, off);
    }
  }

  // Whom a signal readies

  /** The processes of a list that wait for `e`, in list order. */
  function Matching(procs: map<Pid, Proc>, s: seq<Pid>, e: Event): seq<Pid> {
    if s == [] then []
    else (if s[0] in procs && procs[s[0]].event == e then [s[0]] else []) + Matching(procs, s[1..], e)
  }

  lemma {:induction false} PicksAre(procs: map<Pid, Proc>, s: seq<Pid>, e: Event, n: nat)
    ensures Picks(procs, s, e, n) == First(Matching(procs, s, e), n)
  {
    if s != [] {
      if s[0] in procs && procs[s[0]].event == e {
        if n > 0 {
          PicksAre(procs, s[1..], e, n - 1);
          FirstOfMore(s[0], Matching(procs, s[1..], e), n);
        }
      } else {
        PicksAre(procs, s[1..], e, n);
      }
    }
  }

  function First(s: seq<Pid>, n: nat): seq<Pid> { if n < |s| then s[..n] else s }

  lemma FirstOfMore(x: Pid, s: seq<Pid>, n: nat)
    requires n > 0
    ensures First([x] + s, n) == [x] + First(s, n - 1)
  {
  }

  lemma {:induction false} NoDupPicks(procs: map<Pid, Proc>, s: seq<Pid>, e: Event, n: nat)
    requires NoDup(s)
    ensures NoDup(Picks(procs, s, e, n))
  {
    if s != [] && n > 0 {
      if s[0] in procs && procs[s[0]].event == e {
        NoDupPicks(procs, s[1..], e, n - 1);
        PicksIn(procs, s[1..], e, n - 1);
        assert Picks(procs, s, e, n)[1..] == Picks(procs, s[1..], e, n - 1);
      } else {
        NoDupPicks(procs, s[1..], e, n);
      }
    }
  }

  /** Waiters woken go to the end of the ready list in the order they waited. */
  lemma {:induction false} WakeAllReadies(k: Tables, ps: seq<Pid>, hash: Hash)
    requires NoDup(ps) && forall p :: p in ps ==> p in k.procs && !k.procs[p].suspend && k.procs[p].waiting
    ensures WakeAll(k, ps, hash).rdy == k.rdy + ps && WakeAll(k, ps, hash).susp == k.susp
    decreases |ps|
  {
    if ps == [] {
      assert k.rdy + [] == k.rdy;
    } else {
      var p := ps[0];
      assert p in ps;
      WakeReadies(k, p, hash);
      var k1 := Wake(k, p, hash);
      forall q | q in ps[1..] ensures q in k1.procs && !k1.procs[q].suspend && k1.procs[q].waiting {
        assert q in ps && q != p;
      }
      WakeAllReadies(k1, ps[1..], hash);
      AppendHead(k.rdy, ps);
    }
  }

  lemma AppendHead(s: seq<Pid>, ps: seq<Pid>)
    requires ps != []
    ensures s + [ps[0]] + ps[1..] == s + ps
  {
  }

  lemma WakeReadies(k: Tables, p: Pid, hash: Hash)
    requires p in k.procs && !k.procs[p].suspend && k.procs[p].waiting
    ensures var k' := Wake(k, p, hash);
            k'.rdy == k.rdy + [p] && k'.susp == k.susp && k'.procs == k.procs[p := Woken(k.procs[p])]
  {
    var k0, k1 := Del(k, p, hash), Wake(k, p, hash);
    assert ListAt(k0, OnRdy) == k.rdy && ListAt(k0, OnSusp) == k.susp;
    assert ListAt(k1, OnRdy) == k.rdy + [p] && ListAt(k1, OnSusp) == k.susp;
  }

  /** Suspended processes woken become ready for nobody; they go to the end of their own list. */
  lemma {:induction false} WakeAllStays(k: Tables, ps: seq<Pid>, hash: Hash)
    requires forall p :: p in ps ==> p in k.procs && k.procs[p].suspend
    ensures WakeAll(k, ps, hash).rdy == k.rdy
    decreases |ps|
  {
    if ps != [] {
      var p := ps[0];
      assert p in ps;
      var k0 := Del(k, p, hash);
      assert ListAt(k0, OnRdy) == k.rdy && ListAt(Wake(k, p, hash), OnRdy) == k.rdy;
      WakeAllStays(Wake(k, p, hash), ps[1..], hash);
    }
  }

  /** A signal readies the first `n` waiters for it, in the order they waited, and no other process. */
  lemma KSigReadies(k: Tables, e: Event, n0: nat, hash: Hash, off: set<Pid>)
    requires Listed(k, hash, off) && e != NULL
    ensures KSig(k, e, n0, hash).rdy ==
            k.rdy + First(Matching(k.procs, ListAt(k, OnWait(hash(e))), e), if n0 == 0 then EVERYBODY else n0)
  {
    var n := if n0 == 0 then EVERYBODY else n0;
    var s := ListAt(k, OnWait(hash(e)));
    var a := Picks(k.procs, s, e, n);
    PicksAre(k.procs, s, e, n);
    PicksIn(k.procs, s, e, n);
    NoDupPicks(k.procs, s, e, n);
    forall p | p in a ensures p in k.procs && !k.procs[p].suspend && k.procs[p].waiting {
      assert On(k, p, OnWait(hash(e)));
    }
    WakeAllReadies(k, a, hash);
    var k1 := WakeFrom(k, OnWait(hash(e)), e, n, hash);
    WakeFromKeeps(k, OnWait(hash(e)), e, n, hash, off);
    PicksIn(k1.procs, k1.susp, e, Left(n, |a|));
    forall p | p in Picks(k1.procs, ListAt(k1, OnSusp), e, Left(n, |a|)) ensures p in k1.procs && k1.procs[p].suspend {
      assert On(k1, p, OnSusp);
    }
    WakeAllStays(k1, Picks(k1.procs, k1.susp, e, Left(n, |a|)), hash);
  }

  // No wakeup is lost

  lemma {:induction false} WakeAllOthers(k: Tables, ps: seq<Pid>, hash: Hash, p: Pid)
    requires p !in ps
    ensures p in WakeAll(k, ps, hash).procs <==> p in k.procs
    ensures p in k.procs ==> WakeAll(k, ps, hash).procs[p] == k.procs[p]
    decreases |ps|
  {
    if ps != [] {
      assert ps[0] in ps;
      WakeAllOthers(Wake(k, ps[0], hash), ps[1..], hash, p);
    }
  }

  /** Process `p` is ready, or still waits for `e`. */
  ghost predicate Hopeful(k: Tables, p: Pid, e: Event) {
    p in k.procs && (p in k.rdy || k.procs[p] == k.procs[p].(suspend := false, waiting := true, event := e))
  }

  lemma {:induction false} MatchingHas(procs: map<Pid, Proc>, s: seq<Pid>, e: Event, p: Pid)
    requires p in s && p in procs && procs[p].event == e
    ensures p in Matching(procs, s, e)
  {
    if s[0] != p {
      MatchingHas(procs, s[1..], e, p);
    }
  }

  lemma {:induction false} MatchingShort(procs: map<Pid, Proc>, s: seq<Pid>, e: Event)
    ensures |Matching(procs, s, e)| <= |s|
  {
    if s != [] {
      MatchingShort(procs, s[1..], e);
    }
  }

  lemma {:induction false} ListShort(s: seq<Pid>, all: set<Pid>)
    requires NoDup(s) && forall p :: p in s ==> p in all
    ensures |s| <= |all|
    decreases |s|
  {
    if s != [] {
      assert s[0] in s;
      assert forall p :: p in s[1..] ==> p in s && p != s[0];
      ListShort(s[1..], all - {s[0]});
    }
  }

  /** A signal for another event leaves a waiter alone, or readies it. */
  lemma KSigHopeful(k: Tables, g: Sig, hash: Hash, p: Pid, e: Event)
    requires Listed(k, hash, {}) && Hopeful(k, p, e)
    ensures Hopeful(KSig(k, g.event, g.n, hash), p, e)
  {
    if g.event != NULL {
      KSigReadies(k, g.event, g.n, hash, {});
      KSigKeeps(k, g.event, g.n, hash, {});
      if p !in KSig(k, g.event, g.n, hash).rdy {
        Unwoken(k, g, hash, p, e);
      }
    }
  }

  lemma Unwoken(k: Tables, g: Sig, hash: Hash, p: Pid, e: Event)
    requires Listed(k, hash, {}) && Hopeful(k, p, e) && g.event != NULL && p !in KSig(k, g.event, g.n, hash).rdy
    ensures p in KSig(k, g.event, g.n, hash).procs && KSig(k, g.event, g.n, hash).procs[p] == k.procs[p]
  {
    var n := if g.n == 0 then EVERYBODY else g.n;
    var pl := OnWait(hash(g.event));
    var a := Picks(k.procs, ListAt(k, pl), g.event, n);
    KSigReadies(k, g.event, g.n, hash, {});
    PicksAre(k.procs, ListAt(k, pl), g.event, n);
    assert forall q :: q in a ==> q in k.rdy + a;
    assert p !in k.rdy;
    WakeAllOthers(k, a, hash, p);
    var k1 := WakeFrom(k, pl, g.event, n, hash);
    WakeFromKeeps(k, pl, g.event, n, hash, {});
    PicksIn(k1.procs, k1.susp, g.event, Left(n, |a|));
    assert On(k1, p, OnSusp) <==> Belongs(k1, p, OnSusp, hash, {});
    WakeAllOthers(k1, Picks(k1.procs, k1.susp, g.event, Left(n, |a|)), hash, p);
  }

  /** A broadcast readies every waiter. */
  lemma KSigWakes(k: Tables, e: Event, hash: Hash, p: Pid)
    requires Listed(k, hash, {}) && Hopeful(k, p, e) && e != NULL && |k.procs| <= EVERYBODY
    ensures p in KSig(k, e, 0, hash).rdy
  {
    KSigReadies(k, e, 0, hash, {});
    if p !in k.rdy {
      var pl := OnWait(hash(e));
      var s := ListAt(k, pl);
      assert On(k, p, pl) by {
        assert On(k, p, pl) <==> Belongs(k, p, pl, hash, {});
      }
      forall q | q in s ensures q in k.procs.Keys {
        assert On(k, q, pl);
      }
      ListShort(s, k.procs.Keys);
      MatchingShort(k.procs, s, e);
      MatchingHas(k.procs, s, e, p);
    }
  }

  /**
   A process that posts its wait before the queued signals are applied cannot miss one of them:
   if a broadcast of its event is anywhere in the queue, it is ready when the queue is empty.
   */
  lemma {:induction false} NoLostWakeup(k: Tables, sigs: seq<Sig>, hash: Hash, p: Pid, e: Event)
    requires Listed(k, hash, {}) && Hopeful(k, p, e) && e != NULL && |k.procs| <= EVERYBODY
    requires p in k.rdy || Sig(e, 0) in sigs
    ensures p in Apply(k, sigs, hash).rdy
    decreases |sigs|
  {
    if sigs != [] {
      var g := sigs[0];
      var k1 := KSig(k, g.event, g.n, hash);
      KSigKeeps(k, g.event, g.n, hash, {});
      assert k1.procs.Keys == k.procs.Keys by {
        assert forall q :: q in k1.procs.Keys <==> q in k.procs.Keys;
      }
      KSigHopeful(k, g, hash, p, e);
      if g.event != NULL {
        KSigReadies(k, g.event, g.n, hash, {});
      }
      if g == Sig(e, 0) {
        KSigWakes(k, e, hash, p);
      }
      NoLostWakeup(k1, sigs[1..], hash, p, e);
    }
  }

  // The calls

  /** What `kwait` comes to: another process runs, with this value; nobody else was ready; or all is idle. */
  datatype Outcome = Ran(val: int) | Stayed | Asleep

  datatype Result = Result(k: Tables, outcome: Outcome)

  /** The wait for `e` is posted, and the running process is on the wait list. */
  function Posted(k: Tables, e: Event, hash: Hash): Tables
    requires k.cur in k.procs
  {
    if e == NULL then k
    else Add(Set(k, k.cur, k.procs[k.cur].(waiting := true, event := e)), k.cur, hash)
  }

  /** The first ready process runs. */
  function Dispatch(k: Tables, hash: Hash): Result
    requires k.rdy != [] && k.rdy[0] in k.procs
  {
    var p := k.rdy[0];
    var k1 := Del(k.(cur := p), p, hash);
    Result(Set(k1, p, k.procs[p].(retval := 0)), Ran(k.procs[p].retval))
  }

  /** Until something is ready: interrupts queue a batch of signals, which are applied. */
  function Idle(k: Tables, batches: seq<seq<Sig>>, hash: Hash): Result
    decreases |batches|
  {
    if k.rdy != [] && k.rdy[0] in k.procs then Dispatch(k, hash)
    else if batches == [] then Result(k, Asleep)
    else Idle(Apply(k, batches[0], hash), batches[1..], hash)
  }

  /** `kwait` */
  function Wait(k: Tables, e: Event, queue: seq<Sig>, batches: seq<seq<Sig>>, hash: Hash): Result
    requires k.cur in k.procs
  {
    var k1 := Apply(Posted(k, e, hash), queue, hash);
    if e != NULL then Idle(k1, batches, hash)
    else if k1.rdy == [] then Result(k1, Stayed)
    else if k1.cur in k1.procs then Idle(Add(k1, k1.cur, hash), batches, hash)
    else Result(k1, Stayed)
  }

  lemma PostedKeeps(k: Tables, e: Event, hash: Hash)
    requires Ok(k, hash)
    ensures Listed(Posted(k, e, hash), hash, if e == NULL then {k.cur} else {})
    ensures SameProcs(k, Posted(k, e, hash))
    ensures e != NULL && !k.procs[k.cur].suspend ==> Hopeful(Posted(k, e, hash), k.cur, e)
  {
    if e != NULL {
      var pr := k.procs[k.cur].(waiting := true, event := e);
      SetKeeps(k, k.cur, pr, hash, {k.cur});
      AddKeeps(Set(k, k.cur, pr), k.cur, hash, {k.cur});
      assert {k.cur} - {k.cur} == {};
    }
  }

  lemma DispatchKeeps(k: Tables, hash: Hash)
    requires Listed(k, hash, {}) && k.rdy != [] && k.rdy[0] in k.procs
    ensures Ok(Dispatch(k, hash).k, hash)
  {
    var p := k.rdy[0];
    var k0 := k.(cur := p);
    forall pl ensures ListAt(k0, pl) == ListAt(k, pl) {
    }
    forall q, pl ensures On(k0, q, pl) <==> Belongs(k0, q, pl, hash, {}) {
      assert On(k, q, pl) <==> Belongs(k, q, pl, hash, {});
    }
    DelKeeps(k0, p, hash, {});
    assert {} + {p} == {p};
    SetKeeps(Del(k0, p, hash), p, k.procs[p].(retval := 0), hash, {p});
  }

  lemma {:induction false} IdleKeeps(k: Tables, batches: seq<seq<Sig>>, hash: Hash)
    requires Listed(k, hash, {})
    ensures var r := Idle(k, batches, hash);
            if r.outcome == Asleep then Listed(r.k, hash, {}) && r.k.rdy == [] else r.outcome.Ran? && Ok(r.k, hash)
    decreases |batches|
  {
    if k.rdy != [] {
      assert k.rdy[0] in k.rdy;
      assert On(k, k.rdy[0], OnRdy) <==> Belongs(k, k.rdy[0], OnRdy, hash, {});
      DispatchKeeps(k, hash);
    } else if batches != [] {
      ApplyKeeps(k, batches[0], hash, {});
      IdleKeeps(Apply(k, batches[0], hash), batches[1..], hash);
    }
  }

  /** `kwait` keeps every process on its one list; idle, the process that called is on one too. */
  lemma WaitKeeps(k: Tables, e: Event, queue: seq<Sig>, batches: seq<seq<Sig>>, hash: Hash)
    requires Ok(k, hash)
    ensures var r := Wait(k, e, queue, batches, hash);
            if r.outcome == Asleep then Listed(r.k, hash, {}) && r.k.rdy == [] else Ok(r.k, hash)
  {
    PostedKeeps(k, e, hash);
    var off := if e == NULL then {k.cur} else {};
    ApplyKeeps(Posted(k, e, hash), queue, hash, off);
    var k1 := Apply(Posted(k, e, hash), queue, hash);
    if e != NULL {
      IdleKeeps(k1, batches, hash);
    } else if k1.rdy != [] {
      AddKeeps(k1, k1.cur, hash, {k1.cur});
      assert {k1.cur} - {k1.cur} == {};
      IdleKeeps(Add(k1, k1.cur, hash), batches, hash);
    }
  }

  /** A broadcast queued before the wait for it makes the wait end: the caller is ready again. */
  lemma WaitSeesQueued(k: Tables, e: Event, queue: seq<Sig>, hash: Hash)
    requires Ok(k, hash) && e != NULL && Sig(e, 0) in queue && !k.procs[k.cur].suspend && |k.procs| <= EVERYBODY
    ensures k.cur in Apply(Posted(k, e, hash), queue, hash).rdy
  {
    PostedKeeps(k, e, hash);
    NoLostWakeup(Posted(k, e, hash), queue, hash, k.cur, e);
  }

  // A process that suspends itself

  function Waiter(pr: Proc, e: Event): Proc { pr.(suspend := false, waiting := true, event := e) }

  /** Somebody who is not suspended, nor among `off`, waits for `e`. */
  ghost predicate Awaited(k: Tables, e: Event, off: set<Pid>) {
    exists p :: p in k.procs && p !in off && k.procs[p] == Waiter(k.procs[p], e)
  }

  lemma {:induction false} MatchingIn(procs: map<Pid, Proc>, s: seq<Pid>, e: Event)
    ensures forall p :: p in Matching(procs, s, e) ==> p in s && p in procs && procs[p].event == e
  {
    if s != [] {
      MatchingIn(procs, s[1..], e);
    }
  }

  /** Somebody waits for `e` if and only if a signal for it has somebody to ready. */
  lemma WaitsMatch(k: Tables, e: Event, hash: Hash, off: set<Pid>)
    requires Listed(k, hash, off)
    ensures Awaited(k, e, off) <==> Matching(k.procs, ListAt(k, OnWait(hash(e))), e) != []
  {
    var pl := OnWait(hash(e));
    var s := ListAt(k, pl);
    if Matching(k.procs, s, e) != [] {
      var p := Matching(k.procs, s, e)[0];
      MatchingIn(k.procs, s, e);
      assert p in Matching(k.procs, s, e);
      assert On(k, p, pl) <==> Belongs(k, p, pl, hash, off);
      assert k.procs[p] == Waiter(k.procs[p], e);
    }
    if p :| p in k.procs && p !in off && k.procs[p] == Waiter(k.procs[p], e) {
      assert On(k, p, pl) <==> Belongs(k, p, pl, hash, off);
      MatchingHas(k.procs, s, e, p);
    }
  }

  /** The same processes are suspended, and the others are as they were. */
  ghost predicate SameOthers(k: Tables, k': Tables) {
    && SameProcs(k, k')
    && forall p :: p in k.procs ==>
         k'.procs[p].suspend == k.procs[p].suspend && (!k.procs[p].suspend ==> k'.procs[p] == k.procs[p])
  }

  lemma {:induction false} WakeSuspended(k: Tables, ps: seq<Pid>, hash: Hash)
    requires forall p :: p in ps ==> p in k.procs && k.procs[p].suspend
    ensures SameOthers(k, WakeAll(k, ps, hash))
    decreases |ps|
  {
    if ps != [] {
      assert ps[0] in ps;
      var k1 := Wake(k, ps[0], hash);
      forall p | p in ps[1..] ensures p in k1.procs && k1.procs[p].suspend {
        assert p in ps;
      }
      WakeSuspended(k1, ps[1..], hash);
    }
  }

  /** A signal nobody waits for readies nobody, and leaves all but suspended processes alone. */
  lemma KSigIdle(k: Tables, e: Event, n0: nat, hash: Hash, off: set<Pid>)
    requires Listed(k, hash, off) && e != NULL && !Awaited(k, e, off)
    ensures SameOthers(k, KSig(k, e, n0, hash)) && KSig(k, e, n0, hash).rdy == k.rdy
  {
    var n := if n0 == 0 then EVERYBODY else n0;
    WaitsMatch(k, e, hash, off);
    KSigReadies(k, e, n0, hash, off);
    PicksAre(k.procs, ListAt(k, OnWait(hash(e))), e, n);
    PicksIn(k.procs, k.susp, e, n);
    forall p | p in Picks(k.procs, ListAt(k, OnSusp), e, n) ensures p in k.procs && k.procs[p].suspend {
      assert On(k, p, OnSusp);
    }
    WakeSuspended(k, Picks(k.procs, k.susp, e, n), hash);
  }

  lemma {:induction false} ApplyReady(k: Tables, sigs: seq<Sig>, hash: Hash, off: set<Pid>)
    requires Listed(k, hash, off) && k.rdy != []
    ensures Apply(k, sigs, hash).rdy != []
    decreases |sigs|
  {
    if sigs != [] {
      KSigKeeps(k, sigs[0].event, sigs[0].n, hash, off);
      if sigs[0].event != NULL {
        KSigReadies(k, sigs[0].event, sigs[0].n, hash, off);
      }
      ApplyReady(KSig(k, sigs[0].event, sigs[0].n, hash), sigs[1..], hash, off);
    }
  }

  /** No process is ready, and none waits for an event of these signals. */
  ghost predicate Nobody(k: Tables, sigs: seq<Sig>, off: set<Pid>) {
    k.rdy == [] && forall i :: 0 <= i < |sigs| && sigs[i].event != NULL ==> !Awaited(k, sigs[i].event, off)
  }

  /** Once the queued signals are applied, nobody is ready if and only if nobody was, and they were for nobody. */
  lemma {:induction false} ApplyIdle(k: Tables, sigs: seq<Sig>, hash: Hash, off: set<Pid>)
    requires Listed(k, hash, off)
    ensures Apply(k, sigs, hash).rdy == [] <==> Nobody(k, sigs, off)
    decreases |sigs|
  {
    if k.rdy != [] {
      ApplyReady(k, sigs, hash, off);
    } else if sigs != [] {
      var g := sigs[0];
      var k1 := KSig(k, g.event, g.n, hash);
      KSigKeeps(k, g.event, g.n, hash, off);
      if g.event != NULL && Awaited(k, g.event, off) {
        WaitsMatch(k, g.event, hash, off);
        KSigReadies(k, g.event, g.n, hash, off);
        ApplyReady(k1, sigs[1..], hash, off);
      } else {
        if g.event != NULL {
          KSigIdle(k, g.event, g.n, hash, off);
        }
        ApplyIdle(k1, sigs[1..], hash, off);
        SameNobody(k, k1, sigs, off);
      }
    }
  }

  lemma SameNobody(k: Tables, k1: Tables, sigs: seq<Sig>, off: set<Pid>)
    requires sigs != [] && SameOthers(k, k1) && k1.rdy == k.rdy
    requires sigs[0].event != NULL ==> !Awaited(k, sigs[0].event, off)
    ensures Nobody(k, sigs, off) <==> Nobody(k1, sigs[1..], off)
  {
    forall e ensures Awaited(k1, e, off) <==> Awaited(k, e, off) {
      assert forall p :: p in k.procs ==> (k.procs[p] == Waiter(k.procs[p], e) <==> k1.procs[p] == Waiter(k1.procs[p], e));
    }
    if Nobody(k1, sigs[1..], off) {
      forall i | 0 <= i < |sigs| && sigs[i].event != NULL ensures !Awaited(k, sigs[i].event, off) {
        if i > 0 {
          assert sigs[1..][i - 1] == sigs[i];
        }
      }
    }
  }

  /** Signals leave a process alone that is on no list. */
  lemma {:induction false} ApplyOff(k: Tables, sigs: seq<Sig>, hash: Hash, off: set<Pid>, p: Pid)
    requires Listed(k, hash, off) && p in off && p in k.procs
    ensures p in Apply(k, sigs, hash).procs && Apply(k, sigs, hash).procs[p] == k.procs[p]
    decreases |sigs|
  {
    if sigs != [] {
      var g := sigs[0];
      KSigKeeps(k, g.event, g.n, hash, off);
      if g.event != NULL {
        var n := if g.n == 0 then EVERYBODY else g.n;
        var pl := OnWait(hash(g.event));
        WakeFromOff(k, pl, g.event, n, hash, off, p);
        WakeFromKeeps(k, pl, g.event, n, hash, off);
        WakeFromOff(WakeFrom(k, pl, g.event, n, hash), OnSusp, g.event,
                    Left(n, |Picks(k.procs, ListAt(k, pl), g.event, n)|), hash, off, p);
      }
      ApplyOff(KSig(k, g.event, g.n, hash), sigs[1..], hash, off, p);
    }
  }

  lemma WakeFromOff(k: Tables, pl: Place, e: Event, n: nat, hash: Hash, off: set<Pid>, p: Pid)
    requires Listed(k, hash, off) && p in off && p in k.procs
    ensures p in WakeFrom(k, pl, e, n, hash).procs && WakeFrom(k, pl, e, n, hash).procs[p] == k.procs[p]
  {
    PicksIn(k.procs, ListAt(k, pl), e, n);
    assert On(k, p, pl) <==> Belongs(k, p, pl, hash, off);
    WakeAllOthers(k, Picks(k.procs, ListAt(k, pl), e, n), hash, p);
  }

  /** The tables when the running process has marked itself as suspended. */
  function Marked(k: Tables): Tables
    requires k.cur in k.procs
  {
    Set(k, k.cur, k.procs[k.cur].(suspend := true))
  }

  /**
   A process that suspends itself goes on running, marked as suspended, if and only if no other is ready
   and the queued signals are for nobody; otherwise another one runs, and it is on the suspend list.
   */
  lemma SuspendsItselfIff(k: Tables, queue: seq<Sig>, batches: seq<seq<Sig>>, hash: Hash)
    requires Ok(k, hash)
    ensures var r := Wait(Marked(k), NULL, queue, batches, hash);
            && (r.outcome == Stayed <==> Nobody(k, queue, {k.cur}))
            && (if r.outcome == Stayed then r.k.cur == k.cur && r.k.cur in r.k.procs && r.k.procs[r.k.cur].suspend
                else r.outcome.Ran? && r.k.cur != k.cur && On(r.k, k.cur, OnSusp))
  {
    var m := Marked(k);
    SetKeeps(k, k.cur, k.procs[k.cur].(suspend := true), hash, {k.cur});
    ApplyKeeps(m, queue, hash, {k.cur});
    ApplyIdle(m, queue, hash, {k.cur});
    ApplyOff(m, queue, hash, {k.cur}, k.cur);
    assert forall e :: Awaited(m, e, {k.cur}) <==> Awaited(k, e, {k.cur});
    var k1 := Apply(m, queue, hash);
    if k1.rdy != [] {
      AddKeeps(k1, k.cur, hash, {k.cur});
      assert {k.cur} - {k.cur} == {};
      SuspendedLeaves(k1, batches, hash);
    }
  }

  /** A process marked as suspended, put on its list, leaves the processor to one that is ready. */
  lemma SuspendedLeaves(k: Tables, batches: seq<seq<Sig>>, hash: Hash)
    requires k.cur in k.procs && k.procs[k.cur].suspend && k.rdy != [] && Listed(Add(k, k.cur, hash), hash, {})
    ensures var r := Idle(Add(k, k.cur, hash), batches, hash);
            r.outcome.Ran? && r.k.cur != k.cur && On(r.k, k.cur, OnSusp)
  {
    var k2 := Add(k, k.cur, hash);
    assert ListAt(k2, OnRdy) == k.rdy;
    var p := k2.rdy[0];
    assert On(k2, p, OnRdy) <==> Belongs(k2, p, OnRdy, hash, {});
    DispatchKeeps(k2, hash);
    var r := Dispatch(k2, hash).k;
    assert On(r, k.cur, OnSusp) <==> Belongs(r, k.cur, OnSusp, hash, {r.cur});
  }

  /** `suspend`, of another process. */
  function Suspend(k: Tables, p: Pid, hash: Hash): Tables
    requires p in k.procs
  {
    Move(k, p, k.procs[p].(suspend := true), hash)
  }

  /** `resume` */
  function Resume(k: Tables, p: Pid, hash: Hash): Tables
    requires p in k.procs
  {
    Move(k, p, k.procs[p].(suspend := false), hash)
  }

  /** `alert` */
  function Alert(k: Tables, p: Pid, val: int, hash: Hash): Tables
    requires p in k.procs
  {
    var pr := k.procs[p].(waiting := false, retval := val, event := NULL);
    if p == k.cur then Set(k, p, pr) else Move(k, p, pr, hash)
  }

  /** `newproc` */
  function New(k: Tables, p: Pid, hash: Hash): Tables { Add(Set(k, p, Proc(false, false, NULL, 0)), p, hash) }

  /** `ksignal`, with interrupts on. */
  function Signal(k: Tables, e: Event, n: nat, queue: seq<Sig>, hash: Hash): Tables {
    KSig(Apply(k, queue, hash), e, n, hash)
  }

  /** `killproc`, of another process: those waiting for its end are told, and it is no more. */
  function Kill(k: Tables, p: Pid, queue: seq<Sig>, hash: Hash): Tables {
    var k1 := Signal(k, p, 0, queue, hash);
    if p in k1.procs then Gone(Del(k1, p, hash), p) else k1
  }

  function Gone(k: Tables, p: Pid): Tables { k.(procs := k.procs - {p}) }

  lemma NewKeeps(k: Tables, p: Pid, hash: Hash)
    requires Ok(k, hash) && p !in k.procs
    ensures Ok(New(k, p, hash), hash)
  {
    var off := {k.cur, p};
    forall q, pl ensures On(k, q, pl) <==> Belongs(k, q, pl, hash, off) {
      assert On(k, q, pl) <==> Belongs(k, q, pl, hash, {k.cur});
    }
    SetKeeps(k, p, Proc(false, false, NULL, 0), hash, off);
    AddKeeps(Set(k, p, Proc(false, false, NULL, 0)), p, hash, off);
    assert off - {p} == {k.cur};
  }

  lemma KillKeeps(k: Tables, p: Pid, queue: seq<Sig>, hash: Hash)
    requires Ok(k, hash) && p in k.procs && p != k.cur
    ensures Ok(Kill(k, p, queue, hash), hash) && p !in Kill(k, p, queue, hash).procs
  {
    ApplyKeeps(k, queue, hash, {k.cur});
    KSigKeeps(Apply(k, queue, hash), p, 0, hash, {k.cur});
    var k1 := Signal(k, p, 0, queue, hash);
    DelKeeps(k1, p, hash, {k.cur});
    var k2 := Del(k1, p, hash);
    var k3 := Gone(k2, p);
    forall pl ensures ListAt(k3, pl) == ListAt(k2, pl) {
    }
    forall q, pl ensures On(k3, q, pl) <==> Belongs(k3, q, pl, hash, {k3.cur}) {
      assert On(k2, q, pl) <==> Belongs(k2, q, pl, hash, {k.cur} + {p});
    }
  }

  // Whole runs

  datatype Call =
    | CallNew(p: Pid)
    | CallKill(p: Pid)
    | CallSuspend(p: Pid)
    | CallResume(p: Pid)
    | CallAlert(p: Pid, val: int)
    | CallSignal(e: Event, n: nat)
    | CallWait(e: Event)
    | Interrupt(e: Event, n: nat)

  /** The tables and the signal queue; `asleep` while inside an idle `kwait`. */
  datatype System = System(k: Tables, queue: seq<Sig>, asleep: bool)

  /** A signal from an interrupt is queued, unless it repeats the last one or there is no room. */
  function Queued(queue: seq<Sig>, e: Event, n: nat): seq<Sig> {
    if queue != [] && queue[|queue| - 1].event == e then queue
    else if |queue| == SIGQSIZE then queue
    else queue + [Sig(e, n)]
  }

  /** An event signalled from an interrupt is pending afterwards, unless the queue was full. */
  lemma StaysPending(queue: seq<Sig>, e: Event, n: nat)
    requires |queue| < SIGQSIZE
    ensures exists i :: 0 <= i < |Queued(queue, e, n)| && Queued(queue, e, n)[i].event == e
  {
    var q := Queued(queue, e, n);
    assert q[|q| - 1].event == e;
  }

  /**
   A signal is in the queue with its own count after it is given from an interrupt if and only if it
   was there already, or is not dropped: the last one queued is not for the same event, and there is room.
   */
  lemma SignalQueued(queue: seq<Sig>, e: Event, n: nat)
    ensures Sig(e, n) in Queued(queue, e, n) <==>
            Sig(e, n) in queue || ((queue == [] || queue[|queue| - 1].event != e) && |queue| != SIGQSIZE)
  {
    if Queued(queue, e, n) != queue {
      assert Queued(queue, e, n)[|queue|] == Sig(e, n);
    }
  }

  /** A signal for one waiter, and then one for all: the second is dropped. */
  lemma BroadcastLost(e: Event)
    ensures Queued(Queued([], e, 1), e, 0) == [Sig(e, 1)]
  {
  }

  /** What is queued of these signals, given from interrupts with none applied in between. */
  function QueuedAll(sigs: seq<Sig>): seq<Sig>
    decreases |sigs|
  {
    if sigs == [] then []
    else Queued(QueuedAll(sigs[..|sigs| - 1]), sigs[|sigs| - 1].event, sigs[|sigs| - 1].n)
  }

  /** Signal `i` is not for the event of the one before it. */
  predicate Leads(sigs: seq<Sig>, i: nat)
    requires i < |sigs|
  {
    i == 0 || sigs[i - 1].event != sigs[i].event
  }

  /** Of each run of signals for one event, the first. */
  function Leaders(sigs: seq<Sig>): seq<Sig>
    decreases |sigs|
  {
    if sigs == [] then []
    else
      var n := |sigs| - 1;
      Leaders(sigs[..n]) + if Leads(sigs, n) then [sigs[n]] else []
  }

  /** As many as the ring has room for. */
  function Room(all: seq<Sig>): seq<Sig> { if |all| <= SIGQSIZE then all else all[..SIGQSIZE] }

  lemma QueuedMore(all: seq<Sig>, g: Sig, leads: bool)
    requires leads <==> all == [] || all[|all| - 1].event != g.event
    ensures Queued(Room(all), g.event, g.n) == Room(all + if leads then [g] else [])
  {
    assert !leads ==> all + [] == all;
  }

  lemma {:induction false} LastLeader(sigs: seq<Sig>)
    requires sigs != []
    ensures Leaders(sigs) != [] && Leaders(sigs)[|Leaders(sigs)| - 1].event == sigs[|sigs| - 1].event
    decreases |sigs|
  {
    var n := |sigs| - 1;
    if n > 0 {
      LastLeader(sigs[..n]);
    }
  }

  /** The ring holds the first signal of each run for one event, up to its size: the count is that one's. */
  lemma {:induction false} QueuedAre(sigs: seq<Sig>)
    ensures QueuedAll(sigs) == Room(Leaders(sigs))
    decreases |sigs|
  {
    if sigs != [] {
      var n := |sigs| - 1;
      QueuedAre(sigs[..n]);
      if n > 0 {
        LastLeader(sigs[..n]);
      }
      QueuedMore(Leaders(sigs[..n]), sigs[n], Leads(sigs, n));
    }
  }

  /** What the source asks of the caller of each. */
  predicate Allowed(s: System, c: Call) {
    match c
    case CallNew(p) => p !in s.k.procs
    case CallKill(p) => p in s.k.procs && p != s.k.cur
    case CallSuspend(p) => p in s.k.procs
    case CallResume(p) => p in s.k.procs && p != s.k.cur
    case CallAlert(p, _) => p in s.k.procs
    case _ => s.k.cur in s.k.procs
  }

  function Step(s: System, c: Call, hash: Hash): System
    requires Allowed(s, c)
  {
    match c
    case Interrupt(e, n) =>
      if s.asleep then Awaken(s.k, [Queued(s.queue, e, n)], hash) else s.(queue := Queued(s.queue, e, n))
    case _ => if s.asleep then s else Called(s, c, hash)
  }

  function Awaken(k: Tables, batches: seq<seq<Sig>>, hash: Hash): System {
    var r := Idle(k, batches, hash);
    System(r.k, [], r.outcome == Asleep)
  }

  function Called(s: System, c: Call, hash: Hash): System
    requires Allowed(s, c)
  {
    match c
    case CallNew(p) => s.(k := New(s.k, p, hash))
    case CallKill(p) => System(Kill(s.k, p, s.queue, hash), [], false)
    case CallSuspend(p) =>
      if p == s.k.cur then Waits(Marked(s.k), NULL, s.queue, hash)
      else s.(k := Suspend(s.k, p, hash))
    case CallResume(p) => s.(k := Resume(s.k, p, hash))
    case CallAlert(p, val) => s.(k := Alert(s.k, p, val, hash))
    case CallSignal(e, n) => System(Signal(s.k, e, n, s.queue, hash), [], false)
    case CallWait(e) => Waits(s.k, e, s.queue, hash)
    case Interrupt(_, _) => s
  }

  function Waits(k: Tables, e: Event, queue: seq<Sig>, hash: Hash): System
    requires k.cur in k.procs
  {
    var r := Wait(k, e, queue, [], hash);
    System(r.k, [], r.outcome == Asleep)
  }

  ghost predicate Sound(s: System, hash: Hash) {
    if s.asleep then Listed(s.k, hash, {}) && s.k.rdy == [] else Ok(s.k, hash)
  }

  lemma CalledKeeps(s: System, c: Call, hash: Hash)
    requires Sound(s, hash) && !s.asleep && Allowed(s, c)
    ensures Sound(Called(s, c, hash), hash)
  {
    var k := s.k;
    match c
    case CallNew(p) => NewKeeps(k, p, hash);
    case CallKill(p) => KillKeeps(k, p, s.queue, hash);
    case CallSuspend(p) =>
      if p == k.cur {
        SetKeeps(k, p, k.procs[p].(suspend := true), hash, {p});
        WaitKeeps(Set(k, p, k.procs[p].(suspend := true)), NULL, s.queue, [], hash);
      } else {
        MoveKeeps(k, p, k.procs[p].(suspend := true), hash, {k.cur});
      }
    case CallResume(p) => MoveKeeps(k, p, k.procs[p].(suspend := false), hash, {k.cur});
    case CallAlert(p, val) =>
      var pr := k.procs[p].(waiting := false, retval := val, event := NULL);
      if p == k.cur { SetKeeps(k, p, pr, hash, {p}); } else { MoveKeeps(k, p, pr, hash, {k.cur}); }
    case CallSignal(e, n) =>
      ApplyKeeps(k, s.queue, hash, {k.cur});
      KSigKeeps(Apply(k, s.queue, hash), e, n, hash, {k.cur});
    case CallWait(e) => WaitKeeps(k, e, s.queue, [], hash);
    case Interrupt(_, _) =>
  }

  ghost predicate Runs(s: System, cs: seq<Call>, hash: Hash, s': System)
    decreases |cs|
  {
    if cs == [] then s' == s else Allowed(s, cs[0]) && Runs(Step(s, cs[0], hash), cs[1..], hash, s')
  }

  /**
   Over every run, each process but the running one is on exactly one list, the one its flags and
   event select; the running one is on none, unless everything is idle inside its `kwait`.
   */
  lemma {:induction false} RunsKeep(s: System, cs: seq<Call>, hash: Hash, s': System)
    requires Sound(s, hash) && Runs(s, cs, hash, s')
    ensures Sound(s', hash)
    decreases |cs|
  {
    if cs != [] {
      var c := cs[0];
      if s.asleep {
        if c.Interrupt? {
          IdleKeeps(s.k, [Queued(s.queue, c.e, c.n)], hash);
        }
      } else if !c.Interrupt? {
        CalledKeeps(s, c, hash);
      }
      RunsKeep(Step(s, c, hash), cs[1..], hash, s');
    }
  }
}
